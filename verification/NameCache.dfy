/**
  * The name cache: entries linked into a table by name, a table by directory entry number
  * and a list by last use, while a background thread moves both tables bucket by bucket
  * to larger ones.
  *
  * At every step between two lock releases the cache is one finite map from names to
  * entries: both tables and the list hold exactly the live entries, whichever of them are
  * in old and which in new buckets.
  */
module NameCache {
  import opened Common
  import opened NameTable

  datatype Key = Key(mnt: int, parent: int, name: string)

  // nh and dh are the hashes of the key and of the mount and entry number.
  datatype Entry = Entry(key: Key, ino: int, deno: int, nh: int, dh: int)

  const SEARCH_DEPTH := 4
  const HARD_LIMIT := 131072

  function NameHashes(entries: map<int, Entry>): Hashes {
    map x | x in entries :: entries[x].nh
  }

  function DenoHashes(entries: map<int, Entry>): Hashes {
    map x | x in entries :: entries[x].dh
  }

  /** The list holds each live entry once. */
  ghost predicate Listed(lru: seq<int>, entries: map<int, Entry>) {
    Distinct(lru) && forall x: int :: x in lru <==> x in entries
  }

  ghost predicate UniqueKeys(entries: map<int, Entry>) {
    forall x: int, y: int :: x in entries && y in entries && x != y ==> entries[x].key != entries[y].key
  }

  /** No directory entry is cached under two names. */
  ghost predicate UniqueDenos(entries: map<int, Entry>) {
    forall x: int, y: int :: x in entries && y in entries && x != y ==>
      entries[x].key.mnt != entries[y].key.mnt || entries[x].deno != entries[y].deno
  }

  ghost predicate Linked(entries: map<int, Entry>, names: Table, denos: Table, lru: seq<int>) {
    var byName, byDeno := Holds(names, NameHashes(entries)), Holds(denos, DenoHashes(entries));
    byName && byDeno && Listed(lru, entries) && UniqueKeys(entries)
  }

  // The names that are never cached.
  predicate Reserved(name: string) {
    name in {"", ".", ".."}
  }

  /** The directory entry is cached under no other name. */
  ghost predicate OnlyName(entries: map<int, Entry>, key: Key, deno: int) {
    forall x: int :: x in entries && entries[x].key.mnt == key.mnt && entries[x].deno == deno ==> entries[x].key == key
  }

  ghost predicate Cached(entries: map<int, Entry>, key: Key) {
    exists x: int :: x in entries && entries[x].key == key
  }

  // The list by last use after a use that promotes the entry or does not.
  function Used(lru: seq<int>, x: int, promote: bool): seq<int> {
    if promote then [x] + Without(lru, x) else lru
  }

  // hash_init: the first power of two from size on that is large enough
  function RoundedUp(size: int, n: int): (r: int)
    requires size >= 1
    ensures r >= size
    decreases n - size
  {
    if size >= n then size else RoundedUp(size * 2, n)
  }

  // should_rehash, rehash_namecache
  function Rehashed(s: Shape, max: int): Shape {
    if max > s.size * SEARCH_DEPTH && s.next == 0
    then Shape(s.size, RoundedUp(1, (max + SEARCH_DEPTH - 1) / SEARCH_DEPTH), 0)
    else s
  }

  /** The move of one more bucket. */
  function MovedOn(s: Shape): Shape {
    if s.at + 1 == s.size then Shape(s.next, 0, 0) else s.(at := s.at + 1)
  }

  // ---------------------------------------------------------- linking, unlinking

  lemma LinkEntry(entries: map<int, Entry>, names: Table, denos: Table, lru: seq<int>, x: int, e: Entry)
    requires Linked(entries, names, denos, lru) && x !in entries
    requires forall y: int :: y in entries ==> entries[y].key != e.key
    ensures names.main != [] && denos.main != []
    ensures Linked(entries[x := e], WithBucket(names, e.nh, [x] + Bucket(names, e.nh)),
                   WithBucket(denos, e.dh, [x] + Bucket(denos, e.dh)), [x] + lru)
  {
    hide Holds, WithBucket, Bucket;
    NonEmpty(names, NameHashes(entries));
    NonEmpty(denos, DenoHashes(entries));
    InsertHolds(names, NameHashes(entries), x, e.nh);
    InsertHolds(denos, DenoHashes(entries), x, e.dh);
    assert NameHashes(entries[x := e]) == NameHashes(entries)[x := e.nh];
    assert DenoHashes(entries[x := e]) == DenoHashes(entries)[x := e.dh];
    assert forall y: int :: y in [x] + lru <==> y == x || y in lru;
    assert Distinct([x] + lru);
  }

  lemma NonEmpty(t: Table, h: Hashes)
    requires Holds(t, h)
    ensures t.main != []
  {
  }

  lemma HasBuckets(entries: map<int, Entry>, names: Table, denos: Table, lru: seq<int>)
    requires Linked(entries, names, denos, lru)
    ensures names.main != [] && denos.main != []
  {
  }

  lemma KeysUnique(entries: map<int, Entry>, names: Table, denos: Table, lru: seq<int>)
    requires Linked(entries, names, denos, lru)
    ensures UniqueKeys(entries)
  {
  }

  lemma UnlinkEntry(entries: map<int, Entry>, names: Table, denos: Table, lru: seq<int>, x: int)
    requires Linked(entries, names, denos, lru) && x in entries
    ensures names.main != [] && denos.main != []
    ensures var e := entries[x];
            Linked(entries - {x}, WithBucket(names, e.nh, Without(Bucket(names, e.nh), x)),
                   WithBucket(denos, e.dh, Without(Bucket(denos, e.dh), x)), Without(lru, x))
  {
    hide Holds, WithBucket, Bucket, Without;
    NonEmpty(names, NameHashes(entries));
    NonEmpty(denos, DenoHashes(entries));
    RemoveHolds(names, NameHashes(entries), x);
    RemoveHolds(denos, DenoHashes(entries), x);
    assert NameHashes(entries - {x}) == NameHashes(entries) - {x};
    assert DenoHashes(entries - {x}) == DenoHashes(entries) - {x};
    WithoutFacts(lru, x);
  }

  class Cache {
    const nameHash: Key -> int
    const denoHash: (int, int) -> int
    var entries: map<int, Entry>
    var names: Table
    var denos: Table
    var lru: seq<int>
    var count: int
    var limit: int
    var maxChain: int

    constructor (nameHash: Key -> int, denoHash: (int, int) -> int, size: nat, limit: int, maxChain: int)
      requires size > 0 && limit > 0
      ensures Valid() && entries == map[] && count == 0 && ShapeOf(names) == Shape(size, 0, 0)
      ensures this.nameHash == nameHash && this.denoHash == denoHash && this.limit == limit && this.maxChain == maxChain
    {
      this.nameHash, this.denoHash, this.limit, this.maxChain := nameHash, denoHash, limit, maxChain;
      var buckets: seq<seq<int>> := seq(size, (i: nat) => []);
      entries, lru, count := map[], [], 0;
      names, denos := Table(buckets, [], 0), Table(buckets, [], 0);
    }

    ghost predicate Valid() reads this {
      var linked := Linked(entries, names, denos, lru);
      && linked && ShapeOf(names) == ShapeOf(denos) && count == |lru| && limit > 0
      && forall x: int :: x in entries ==>
           entries[x].nh == nameHash(entries[x].key) && entries[x].dh == denoHash(entries[x].key.mnt, entries[x].deno)
    }

    /** The walk of a name bucket: finds the entry with the key if there is one. */
    method Search(key: Key) returns (found: bool, x: int, steps: int)
      requires Valid()
      ensures found ==> x in entries && entries[x].key == key
      ensures !found ==> forall y: int :: y in entries ==> entries[y].key != key
      ensures names.main != [] && (!found ==> steps == |Bucket(names, nameHash(key))|)
    {
      var hash := nameHash(key);
      NonEmpty(names, NameHashes(entries));
      var chain := Bucket(names, hash);
      steps := 0;
      while steps < |chain|
        invariant 0 <= steps <= |chain|
        invariant forall i: int :: 0 <= i < steps ==> chain[i] in entries && entries[chain[i]].key != key
      {
        x := chain[steps];
        FoundInBucket(names, NameHashes(entries), hash, x);
        steps := steps + 1;
        if entries[x].key == key { return true, x, steps; }
      }
      forall y: int | y in entries ensures entries[y].key != key {
        FoundInBucket(names, NameHashes(entries), hash, y);
      }
      found, x := false, 0;
    }

    /** remove_entry */
    method Unlink(x: int)
      requires Valid() && x in entries
      modifies this`entries, this`names, this`denos, this`lru, this`count
      ensures Valid() && entries == old(entries) - {x} && lru == Without(old(lru), x) && count == old(count) - 1
      ensures ShapeOf(names) == ShapeOf(old(names))
    {
      hide Linked, Without;
      var e := entries[x];
      UnlinkEntry(entries, names, denos, lru, x);
      ListSize(entries, names, denos, lru, x);
      lru := Without(lru, x);
      names := WithBucket(names, e.nh, Without(Bucket(names, e.nh), x));
      denos := WithBucket(denos, e.dh, Without(Bucket(denos, e.dh), x));
      entries := entries - {x};
      count := count - 1;
    }

    // get_nc_max
    function Max(): int reads this {
      if limit < HARD_LIMIT then limit else HARD_LIMIT
    }

    /** evict_entries: the most recently used stay, as many as the limit allows. */
    method Evict()
      requires Valid()
      modifies this`entries, this`names, this`denos, this`lru, this`count
      ensures Valid() && count <= Max()
      ensures lru == if |old(lru)| > Max() then old(lru)[..Max()] else old(lru)
      ensures entries == Kept(old(entries), lru)
      ensures ShapeOf(names) == ShapeOf(old(names))
    {
      hide Linked, Kept, Without;
      AllKept(entries, names, denos, lru);
      while count > Max()
        invariant Valid() && |lru| <= |old(lru)| && lru == old(lru)[..|lru|]
        invariant |old(lru)| > Max() ==> |lru| >= Max()
        invariant |old(lru)| <= Max() ==> lru == old(lru)
        invariant entries == Kept(old(entries), lru)
        invariant ShapeOf(names) == ShapeOf(old(names))
        decreases count
      {
        var x := lru[|lru| - 1];
        ghost var before := lru;
        LastIsLive(entries, names, denos, lru);
        Unlink(x);
        assert before == old(lru)[..|before|];
        KeptLess(old(entries), before, x);
        assert lru == before[..|before| - 1] == old(lru)[..|before| - 1];
      }
      assert old(lru)[..|old(lru)|] == old(lru);
    }

    /** promote_entry, when the entry has not been promoted lately. */
    method Promote(x: int)
      requires Valid() && x in entries
      modifies this`lru
      ensures Valid() && lru == [x] + Without(old(lru), x) && |lru| == |old(lru)|
    {
      hide Holds;
      ListSize(entries, names, denos, lru, x);
      if lru[0] != x {
        WithoutFacts(lru, x);
        assert forall y: int :: y in [x] + Without(lru, x) <==> y == x || y in Without(lru, x);
        lru := [x] + Without(lru, x);
        assert Distinct(lru);
      }
    }

    /** pfs_namecache_lookup: the inode the name maps to, if it is cached; the name "." is its directory. */
    method Lookup(key: Key, promote: bool) returns (found: bool, ino: int)
      requires Valid()
      modifies this`lru
      ensures Valid()
      ensures key.name == "." ==> found && ino == key.parent
      ensures key.name != "." ==>
        (found <==> Cached(entries, key))
      ensures key.name != "." && found ==>
        forall x: int :: x in entries && entries[x].key == key ==>
          entries[x].ino == ino && lru == Used(old(lru), x, promote)
      ensures key.name == "." || !found ==> lru == old(lru)
    {
      if key.name == "." { return true, key.parent; }
      var x, steps;
      found, x, steps := Search(key);
      ino := 0;
      if found {
        ino := entries[x].ino;
        if promote {
          Promote(x);
        }
      }
    }

    /**
      * pfs_namecache_enter: a name already there stays as it is; a new one is added unless
      * its bucket is full, and then only the most recently used entries stay.
      */
    method Enter(key: Key, ino: int, deno: int, node: int, promote: bool) returns (added: bool)
      requires Valid() && node !in entries
      requires forall x: int :: x in entries && entries[x].key == key ==>
        entries[x].ino == ino && entries[x].deno == deno
      modifies this
      ensures Valid() && limit == old(limit) && maxChain == old(maxChain)
      ensures old(names).main != []
      ensures added <==>
        && !Reserved(key.name) && (forall x: int :: x in old(entries) ==> old(entries)[x].key != key)
        && |Bucket(old(names), nameHash(key))| < old(maxChain)
      ensures !added ==> entries == old(entries) && count == old(count)
      ensures added ==>
        && count <= Max()
        && lru == (if |old(lru)| + 1 > Max() then ([node] + old(lru))[..Max()] else [node] + old(lru))
        && node in entries && entries[node].key == key && entries[node].ino == ino && entries[node].deno == deno
        && (forall x: int :: x in entries && x != node ==> x in old(entries) && entries[x] == old(entries)[x])
        && (old(count) < Max() ==> forall x: int :: x in old(entries) ==> x in entries)
      ensures !added ==>
        if Reserved(key.name) || !Cached(entries, key) then lru == old(lru)
        else forall x: int :: x in entries && entries[x].key == key ==> lru == Used(old(lru), x, promote)
      ensures ShapeOf(names) ==
        if Reserved(key.name) then ShapeOf(old(names)) else Rehashed(ShapeOf(old(names)), Max())
      ensures old(UniqueDenos(entries)) && OnlyName(old(entries), key, deno) ==> UniqueDenos(entries)
    {
      hide Linked, Bucket;
      added := false;
      HasBuckets(entries, names, denos, lru);
      if !Reserved(key.name) {
        var found, x, steps := Search(key);
        if found {
          KeysUnique(entries, names, denos, lru);
          if promote {
            Promote(x);
          }
        } else if steps < maxChain {
          Add(key, ino, deno, node);
          added := true;
        }
        TryRehash();
      }
    }

    method Add(key: Key, ino: int, deno: int, node: int)
      requires Valid() && node !in entries && forall y: int :: y in entries ==> entries[y].key != key
      modifies this`entries, this`names, this`denos, this`lru, this`count
      ensures Valid() && count <= Max()
      ensures lru == (if |old(lru)| + 1 > Max() then ([node] + old(lru))[..Max()] else [node] + old(lru))
      ensures node in entries && entries[node].key == key && entries[node].ino == ino && entries[node].deno == deno
      ensures forall x: int :: x in entries && x != node ==> x in old(entries) && entries[x] == old(entries)[x]
      ensures old(count) < Max() ==> forall x: int :: x in old(entries) ==> x in entries
      ensures ShapeOf(names) == ShapeOf(old(names))
    {
      hide Linked, Kept, Bucket;
      var e := Entry(key, ino, deno, nameHash(key), denoHash(key.mnt, deno));
      LinkEntry(entries, names, denos, lru, node, e);
      names := WithBucket(names, e.nh, [node] + Bucket(names, e.nh));
      denos := WithBucket(denos, e.dh, [node] + Bucket(denos, e.dh));
      entries := entries[node := e];
      lru := [node] + lru;
      count := count + 1;
      AllKept(entries, names, denos, lru);
      ghost var all := entries;
      Evict();
      assert lru[0] == node;
      KeptFacts(all, lru);
    }

    /** pfs_namecache_delete_by_deno: with one name per directory entry, the entry is gone afterwards. */
    method DeleteByDeno(mnt: int, deno: int) returns (found: bool, gone: int)
      requires Valid()
      modifies this`entries, this`names, this`denos, this`lru, this`count
      ensures Valid()
      ensures found ==> gone in old(entries) && old(entries)[gone].key.mnt == mnt && old(entries)[gone].deno == deno
      ensures entries == if found then old(entries) - {gone} else old(entries)
      ensures count == if found then old(count) - 1 else old(count)
      ensures lru == (if found then Without(old(lru), gone) else old(lru)) && ShapeOf(names) == ShapeOf(old(names))
      ensures !found || UniqueDenos(old(entries)) ==>
        forall y: int :: y in entries ==> entries[y].key.mnt != mnt || entries[y].deno != deno
    {
      found, gone := SearchDeno(mnt, deno);
      if found {
        Unlink(gone);
      }
    }

    /** The walk of a bucket of the table by directory entry number. */
    method SearchDeno(mnt: int, deno: int) returns (found: bool, x: int)
      requires Valid()
      ensures found ==> x in entries && entries[x].key.mnt == mnt && entries[x].deno == deno
      ensures !found ==> forall y: int :: y in entries ==> entries[y].key.mnt != mnt || entries[y].deno != deno
    {
      var hash := denoHash(mnt, deno);
      NonEmpty(denos, DenoHashes(entries));
      var chain, i := Bucket(denos, hash), 0;
      while i < |chain|
        invariant 0 <= i <= |chain|
        invariant forall j: int :: 0 <= j < i ==>
          chain[j] in entries && (entries[chain[j]].key.mnt != mnt || entries[chain[j]].deno != deno)
      {
        x := chain[i];
        FoundInBucket(denos, DenoHashes(entries), hash, x);
        if entries[x].key.mnt == mnt && entries[x].deno == deno { return true, x; }
        i := i + 1;
      }
      forall y: int | y in entries ensures entries[y].key.mnt != mnt || entries[y].deno != deno {
        FoundInBucket(denos, DenoHashes(entries), hash, y);
      }
      found, x := false, 0;
    }

    /** rehash_namecache: empty tables of the new size are put in place; nothing moves yet. */
    method TryRehash()
      requires Valid()
      modifies this`names, this`denos
      ensures Valid() && ShapeOf(names) == Rehashed(ShapeOf(old(names)), Max())
    {
      if Max() > |names.main| * SEARCH_DEPTH && !Expanding(names) {
        var n, size := (Max() + SEARCH_DEPTH - 1) / SEARCH_DEPTH, 1;
        while size < n
          invariant size >= 1 && RoundedUp(size, n) == RoundedUp(1, n)
        {
          size := size * 2;
        }
        var next: seq<seq<int>> := seq(size, (i: nat) => []);
        ExpandHolds(names, NameHashes(entries), next);
        ExpandHolds(denos, DenoHashes(entries), next);
        names := names.(next := next, at := 0);
        denos := denos.(next := next, at := 0);
      }
    }

    /**
      * One round of maintenance_thread: the next bucket of both tables moves, and after the last
      * one the tables are exchanged.
      */
    method MoveBucket() returns (done: bool)
      requires Valid() && Expanding(names)
      modifies this`names, this`denos
      ensures Valid() && (done <==> !Expanding(names))
      ensures ShapeOf(names) == MovedOn(ShapeOf(old(names)))
    {
      hide Holds, Moving;
      MoveBegins(names, NameHashes(entries));
      MoveBegins(denos, DenoHashes(entries));
      ghost var n := |names.main|;
      var t := MoveChain(names, entries, NameHashes(entries), true);
      var u := MoveChain(denos, entries, DenoHashes(entries), false);
      MoveEnds(t, NameHashes(entries));
      MoveEnds(u, DenoHashes(entries));
      done := t.at + 1 == |t.main|;
      names, denos := Advanced(t), Advanced(u);
    }
  }

  /** Popping the bucket's entries one by one into the new table. */
  method MoveChain(t: Table, entries: map<int, Entry>, ghost h: Hashes, byName: bool) returns (r: Table)
    requires Moving(t, h) && h == if byName then NameHashes(entries) else DenoHashes(entries)
    requires t.next != [] && 0 <= t.at < |t.main|
    ensures Moving(r, h) && r.at == t.at && |r.main| == |t.main| && |r.next| == |t.next| && r.at < |r.main|
      && r.main[r.at] == []
    ensures r.next != []
  {
    hide Moving;
    r := t;
    while r.main[r.at] != []
      invariant Moving(r, h) && r.at == t.at && |r.main| == |t.main| && |r.next| == |t.next| && 0 <= r.at < |r.main|
      decreases |r.main[r.at]|
    {
      MoveStep(r, h);
      var x := r.main[r.at][0];
      r := MovedFirst(r, if byName then entries[x].nh else entries[x].dh);
    }
  }

  // The entries still in the list.
  ghost function Kept(entries: map<int, Entry>, lru: seq<int>): map<int, Entry> {
    map x | x in entries && x in lru :: entries[x]
  }

  lemma KeptFacts(entries: map<int, Entry>, lru: seq<int>)
    ensures forall x: int :: x in Kept(entries, lru) ==> x in entries && Kept(entries, lru)[x] == entries[x]
    ensures lru != [] && lru[0] in entries ==> lru[0] in Kept(entries, lru)
  {
  }

  lemma AllKept(entries: map<int, Entry>, names: Table, denos: Table, lru: seq<int>)
    requires Linked(entries, names, denos, lru)
    ensures Kept(entries, lru) == entries
  {
    assert Listed(lru, entries);
    assert forall x: int :: x in Kept(entries, lru) <==> x in entries;
  }

  lemma ListSize(entries: map<int, Entry>, names: Table, denos: Table, lru: seq<int>, x: int)
    requires Linked(entries, names, denos, lru) && x in entries
    ensures lru != [] && |Without(lru, x)| == |lru| - 1
  {
    WithoutFacts(lru, x);
  }

  lemma LastIsLive(entries: map<int, Entry>, names: Table, denos: Table, lru: seq<int>)
    requires Linked(entries, names, denos, lru) && lru != []
    ensures Distinct(lru) && lru[|lru| - 1] in entries && Without(lru, lru[|lru| - 1]) == lru[..|lru| - 1]
  {
    var x := lru[|lru| - 1];
    assert x in lru;
    WithoutAt(lru, |lru| - 1);
  }

  lemma {:induction false} WithoutAt(s: seq<int>, p: nat)
    requires p < |s| && Distinct(s)
    ensures Without(s, s[p]) == s[..p] + s[p + 1..]
  {
    if p > 0 {
      assert s[0] != s[p];
      assert forall i: int, j: int :: 0 <= i < j < |s[1..]| ==> s[1..][i] == s[i + 1] && s[1..][j] == s[j + 1];
      WithoutAt(s[1..], p - 1);
      assert s[..p] == [s[0]] + s[1..][..p - 1] && s[p + 1..] == s[1..][p..];
    }
  }

  lemma KeptLess(entries: map<int, Entry>, lru: seq<int>, x: int)
    requires Distinct(lru) && lru != [] && x == lru[|lru| - 1]
    ensures Kept(entries, lru) - {x} == Kept(entries, lru[..|lru| - 1])
  {
    var less := lru[..|lru| - 1];
    assert lru == less + [x];
    assert x !in less;
  }
}
