/**
  * A chained hash table that may be halfway through a move to a larger one.
  *
  * Buckets of the old table below `at` have been moved; an item is in the new table if
  * its old bucket number is below `at`, and in the old one otherwise.  `h` gives the hash
  * of every item held.
  */
module NameTable {
  import opened Common

  datatype Table = Table(main: seq<seq<int>>, next: seq<seq<int>>, at: int)

  type Hashes = map<int, int>

  // hash & mask, for tables whose size is a power of two
  function Idx(hash: int, n: int): (i: int)
    requires n > 0
    ensures 0 <= i < n
  {
    hash % n
  }

  predicate Expanding(t: Table) {
    t.next != []
  }

  /** The sizes of the two tables and how far the move has come. */
  datatype Shape = Shape(size: int, next: int, at: int)

  function ShapeOf(t: Table): Shape {
    Shape(|t.main|, |t.next|, t.at)
  }

  /** Items with these hashes are in one bucket. */
  predicate SameSlot(s: Shape, hash: int, other: int)
    requires s.size > 0 && s.next >= 0
  {
    var i, j := Idx(hash, s.size), Idx(other, s.size);
    if s.next == 0 || i >= s.at then i == j else j < s.at && Idx(hash, s.next) == Idx(other, s.next)
  }

  // get_namehash_head, get_denohash_head
  function Bucket(t: Table, hash: int): seq<int>
    requires t.main != []
  {
    if !Expanding(t) || Idx(hash, |t.main|) >= t.at then t.main[Idx(hash, |t.main|)]
    else t.next[Idx(hash, |t.next|)]
  }

  function WithBucket(t: Table, hash: int, chain: seq<int>): Table
    requires t.main != []
  {
    if !Expanding(t) || Idx(hash, |t.main|) >= t.at then t.(main := t.main[Idx(hash, |t.main|) := chain])
    else t.(next := t.next[Idx(hash, |t.next|) := chain])
  }

  ghost predicate MainOk(t: Table, h: Hashes, i: int)
    requires t.main != [] && 0 <= i < |t.main|
  {
    && Distinct(t.main[i])
    && forall x: int :: x in t.main[i] ==> x in h && Idx(h[x], |t.main|) == i && (Expanding(t) ==> i >= t.at)
  }

  ghost predicate NextOk(t: Table, h: Hashes, i: int)
    requires t.main != [] && 0 <= i < |t.next|
  {
    && Distinct(t.next[i])
    && forall x: int :: x in t.next[i] ==> x in h && Idx(h[x], |t.next|) == i && Idx(h[x], |t.main|) < t.at
  }

  ghost predicate Held(t: Table, h: Hashes, x: int)
    requires t.main != [] && x in h
  {
    x in Bucket(t, h[x])
  }

  /** Every item is in the one bucket a search for its hash looks at, and nowhere else. */
  ghost predicate Holds(t: Table, h: Hashes) {
    && t.main != [] && (Expanding(t) ==> 0 <= t.at < |t.main|)
    && (forall i: int :: 0 <= i < |t.main| ==> MainOk(t, h, i))
    && (forall i: int :: 0 <= i < |t.next| ==> NextOk(t, h, i))
    && (forall x: int :: x in h ==> Held(t, h, x))
  }

  lemma FoundInBucket(t: Table, h: Hashes, hash: int, x: int)
    requires Holds(t, h)
    ensures x in h && h[x] == hash ==> x in Bucket(t, hash)
    ensures x in Bucket(t, hash) ==> x in h
  {
    assert x in h ==> Held(t, h, x);
    var i := Idx(hash, |t.main|);
    assert MainOk(t, h, i);
    if Expanding(t) {
      assert NextOk(t, h, Idx(hash, |t.next|));
    }
  }

  /** A bucket holds exactly the items of its slot. */
  lemma BucketIs(t: Table, h: Hashes, hash: int, x: int)
    requires Holds(t, h)
    ensures x in Bucket(t, hash) <==> x in h && SameSlot(ShapeOf(t), hash, h[x])
  {
    hide Idx;
    FoundInBucket(t, h, hash, x);
    assert MainOk(t, h, Idx(hash, |t.main|));
    if Expanding(t) {
      assert NextOk(t, h, Idx(hash, |t.next|));
    }
    if x in h {
      assert Held(t, h, x);
    }
  }

  // LIST_INSERT_HEAD
  lemma InsertHolds(t: Table, h: Hashes, x: int, hash: int)
    requires Holds(t, h) && x !in h
    ensures Holds(WithBucket(t, hash, [x] + Bucket(t, hash)), h[x := hash])
  {
    hide Idx;
    var t', h' := WithBucket(t, hash, [x] + Bucket(t, hash)), h[x := hash];
    FoundInBucket(t, h, hash, x);
    forall i: int | 0 <= i < |t'.main| ensures MainOk(t', h', i) {
      assert MainOk(t, h, i);
    }
    forall i: int | 0 <= i < |t'.next| ensures NextOk(t', h', i) {
      assert NextOk(t, h, i);
    }
    forall y: int | y in h' ensures Held(t', h', y) {
      if y != x {
        assert Held(t, h, y);
      }
    }
  }

  function Without(s: seq<int>, x: int): seq<int> {
    if s == [] then [] else if s[0] == x then s[1..] else [s[0]] + Without(s[1..], x)
  }

  lemma {:induction false} WithoutFacts(s: seq<int>, x: int)
    requires Distinct(s)
    ensures Distinct(Without(s, x)) && forall y: int :: y in Without(s, x) <==> y in s && y != x
    ensures x in s ==> |Without(s, x)| == |s| - 1
  {
    if s != [] {
      assert forall i: int, j: int :: 0 <= i < j < |s[1..]| ==> s[1..][i] == s[i + 1] && s[1..][j] == s[j + 1];
      WithoutFacts(s[1..], x);
      assert s == [s[0]] + s[1..];
      assert s[0] !in s[1..];
      var r := Without(s, x);
      if s[0] != x {
        assert r == [s[0]] + Without(s[1..], x);
        assert s[0] !in Without(s[1..], x);
      }
    }
  }

  lemma BucketDistinct(t: Table, h: Hashes, hash: int)
    requires Holds(t, h)
    ensures Distinct(Bucket(t, hash))
  {
    hide Idx;
    assert MainOk(t, h, Idx(hash, |t.main|));
    if Expanding(t) {
      assert NextOk(t, h, Idx(hash, |t.next|));
    }
  }

  // LIST_REMOVE
  lemma RemoveHolds(t: Table, h: Hashes, x: int)
    requires Holds(t, h) && x in h
    ensures Holds(WithBucket(t, h[x], Without(Bucket(t, h[x]), x)), h - {x})
  {
    hide Idx, Without;
    var t', h' := WithBucket(t, h[x], Without(Bucket(t, h[x]), x)), h - {x};
    assert Held(t, h, x);
    BucketDistinct(t, h, h[x]);
    forall i: int | 0 <= i < |t'.main| ensures MainOk(t', h', i) {
      assert MainOk(t, h, i);
      WithoutFacts(t.main[i], x);
    }
    forall i: int | 0 <= i < |t'.next| ensures NextOk(t', h', i) {
      assert NextOk(t, h, i);
      WithoutFacts(t.next[i], x);
    }
    forall y: int | y in h' ensures Held(t', h', y) {
      assert Held(t, h, y);
      assert MainOk(t, h, Idx(h[y], |t.main|));
      if Expanding(t) {
        assert NextOk(t, h, Idx(h[y], |t.next|));
      }
      WithoutFacts(Bucket(t, h[x]), x);
    }
  }

  // ------------------------------------------------------------------- the move

  /** Halfway through bucket `at`: its items are split between the old bucket and the new table. */
  ghost predicate Moving(t: Table, h: Hashes) {
    && t.main != [] && t.next != [] && 0 <= t.at < |t.main|
    && (forall i: int :: 0 <= i < |t.main| ==> MainOk(t, h, i))
    && (forall i: int :: 0 <= i < |t.next| ==> MovedOk(t, h, i))
    && (forall x: int :: x in h ==> Split(t, h, x))
  }

  ghost predicate MovedOk(t: Table, h: Hashes, i: int)
    requires t.main != [] && 0 <= i < |t.next|
  {
    && Distinct(t.next[i])
    && forall x: int :: x in t.next[i] ==> x in h && Idx(h[x], |t.next|) == i && Idx(h[x], |t.main|) <= t.at
  }

  ghost predicate Split(t: Table, h: Hashes, x: int)
    requires t.main != [] && t.next != [] && x in h
  {
    var i, j := Idx(h[x], |t.main|), Idx(h[x], |t.next|);
    if i > t.at then x in t.main[i]
    else if i < t.at then x in t.next[j]
    else (x in t.main[i] <==> x !in t.next[j])
  }

  lemma MoveBegins(t: Table, h: Hashes)
    requires Holds(t, h) && Expanding(t)
    ensures Moving(t, h) && t.main != [] && 0 <= t.at < |t.main|
  {
    hide Idx;
    forall i: int | 0 <= i < |t.next| ensures MovedOk(t, h, i) {
      assert NextOk(t, h, i);
    }
    forall x: int | x in h ensures Split(t, h, x) {
      assert Held(t, h, x);
      assert NextOk(t, h, Idx(h[x], |t.next|));
    }
  }

  function MovedFirst(t: Table, hash: int): Table
    requires t.next != [] && 0 <= t.at < |t.main| && t.main[t.at] != []
  {
    var x, j := t.main[t.at][0], Idx(hash, |t.next|);
    t.(main := t.main[t.at := t.main[t.at][1..]], next := t.next[j := [x] + t.next[j]])
  }

  lemma MoveStep(t: Table, h: Hashes)
    requires Moving(t, h) && t.main[t.at] != []
    ensures t.main[t.at][0] in h && Moving(MovedFirst(t, h[t.main[t.at][0]]), h)
  {
    hide Idx;
    var chain := t.main[t.at];
    var x := chain[0];
    assert MainOk(t, h, t.at);
    var t' := MovedFirst(t, h[x]);
    assert chain == [x] + chain[1..] && x !in chain[1..];
    assert Split(t, h, x);
    forall i: int | 0 <= i < |t'.main| ensures MainOk(t', h, i) {
      assert MainOk(t, h, i);
      assert i == t.at ==> Distinct(chain[1..]);
    }
    forall i: int | 0 <= i < |t'.next| ensures MovedOk(t', h, i) {
      assert MovedOk(t, h, i);
    }
    forall y: int | y in h ensures Split(t', h, y) {
      assert Split(t, h, y);
    }
  }

  // The old table is dropped when its last bucket has been moved.
  function Advanced(t: Table): Table {
    if t.at + 1 == |t.main| then Table(t.next, [], 0) else t.(at := t.at + 1)
  }

  lemma NoMembers(s: seq<int>)
    requires forall x: int :: x !in s
    ensures s == []
  {
    if s != [] {
      SomeMember(s);
    }
  }

  lemma SomeMember(s: seq<int>)
    requires s != []
    ensures exists x: int :: x in s
  {
    var x := s[0];
    assert x in s;
  }

  lemma MoveEnds(t: Table, h: Hashes)
    requires Moving(t, h) && t.main[t.at] == []
    ensures Holds(Advanced(t), h)
    ensures t.at + 1 == |t.main| ==> forall i: int :: 0 <= i < |t.main| ==> t.main[i] == []
  {
    hide Idx;
    var t' := Advanced(t);
    forall i: int | 0 <= i <= t.at ensures t.main[i] == [] {
      if i < t.at {
        assert MainOk(t, h, i);
        NoMembers(t.main[i]);
      }
    }
    forall i: int | 0 <= i < |t'.main| ensures MainOk(t', h, i) {
      if t.at + 1 == |t.main| {
        assert MovedOk(t, h, i);
      } else {
        assert MainOk(t, h, i);
      }
    }
    forall i: int | 0 <= i < |t'.next| ensures NextOk(t', h, i) {
      assert MovedOk(t, h, i);
    }
    forall x: int | x in h ensures Held(t', h, x) {
      assert Split(t, h, x);
    }
  }

  lemma ExpandHolds(t: Table, h: Hashes, next: seq<seq<int>>)
    requires Holds(t, h) && !Expanding(t) && next != [] && forall i: int :: 0 <= i < |next| ==> next[i] == []
    ensures Holds(t.(next := next, at := 0), h)
  {
    hide Idx;
    var t' := t.(next := next, at := 0);
    forall i: int | 0 <= i < |t'.main| ensures MainOk(t', h, i) {
      assert MainOk(t, h, i);
    }
    forall x: int | x in h ensures Held(t', h, x) {
      assert Held(t, h, x);
    }
  }
}
