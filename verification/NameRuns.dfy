/**
  * Whole runs of the name cache: enter, lookup, delete and the background move in any order.
  *
  * The reference is two plain values: the map of the names entered and not deleted, and the
  * list of the names a least-recently-used cache keeps of them.  The hash tables, and the
  * move between them, show only where a full bucket refuses a name.
  */
module NameRuns {
  import opened Common
  import opened NameTable
  import opened NameCache

  datatype Value = Value(ino: int, deno: int)

  type Names = map<Key, Value>

  datatype Request =
    | Enter(key: Key, value: Value, promote: bool)
    | Lookup(key: Key, promote: bool)
    | Delete(mnt: int, deno: int)
    | Maintain

  // -------------------------------------------------------------------- reference

  /** The names entered and not deleted since: what an unbounded cache would hold. */
  function After(names: Names, r: Request): Names {
    match r
    case Enter(key, value, _) => if Reserved(key.name) then names else names[key := value]
    case Lookup(_, _) => names
    case Delete(mnt, deno) => map key | key in names && !(key.mnt == mnt && names[key].deno == deno) :: names[key]
    case Maintain => names
  }

  function AfterAll(requests: seq<Request>): Names {
    if requests == [] then map[] else After(AfterAll(requests[..|requests| - 1]), requests[|requests| - 1])
  }

  /** A name keeps its value until it is deleted, and a directory entry has one name. */
  ghost predicate Proper(names: Names, r: Request) {
    r.Enter? ==>
      && (r.key in names ==> names[r.key] == r.value)
      && forall key: Key :: key in names && key.mnt == r.key.mnt && names[key].deno == r.value.deno ==> key == r.key
  }

  function Except(order: seq<Key>, gone: set<Key>): seq<Key> {
    if order == [] then [] else (if order[0] in gone then [] else [order[0]]) + Except(order[1..], gone)
  }

  function Front(order: seq<Key>, key: Key, promote: bool): seq<Key> {
    if promote && key in order then [key] + Except(order, {key}) else order
  }

  function Cut(order: seq<Key>, max: int): seq<Key>
    requires max > 0
  {
    if |order| > max then order[..max] else order
  }

  /** The names a least-recently-used cache of the given size keeps, the last used first. */
  function Reorder(order: seq<Key>, names: Names, r: Request, refused: bool, max: int): seq<Key>
    requires max > 0
  {
    match r
    case Enter(key, _, promote) =>
      if Reserved(key.name) then order
      else if key in order then Front(order, key, promote)
      else if refused then order
      else Cut([key] + order, max)
    case Lookup(key, promote) => if key.name == "." then order else Front(order, key, promote)
    case Delete(_, _) => Except(order, names.Keys - After(names, r).Keys)
    case Maintain => order
  }

  function Order(requests: seq<Request>, refused: seq<bool>, max: int): seq<Key>
    requires |refused| == |requests| && max > 0
  {
    var n := |requests| - 1;
    if n < 0 then []
    else Reorder(Order(requests[..n], refused[..n], max), AfterAll(requests[..n]), requests[n], refused[n], max)
  }

  function Reply(names: Names, order: seq<Key>, r: Request): Option<int> {
    match r
    case Lookup(key, _) =>
      if key.name == "." then Some(key.parent)
      else if key in order && key in names then Some(names[key].ino)
      else None
    case _ => None
  }

  /** The sizes of the hash tables after a request, and where the move between them stands. */
  function Reshaped(s: Shape, r: Request, max: int): (t: Shape)
    ensures Sized(s) ==> Sized(t)
  {
    match r
    case Enter(key, _, _) => if Reserved(key.name) then s else Rehashed(s, max)
    case Maintain => if s.next == 0 then s else MovedOn(s)
    case _ => s
  }

  predicate Sized(s: Shape) {
    s.size > 0 && s.next >= 0
  }

  function ShapeAfter(start: Shape, requests: seq<Request>, max: int): (s: Shape)
    requires Sized(start)
    ensures Sized(s)
  {
    var n := |requests| - 1;
    if n < 0 then start else Reshaped(ShapeAfter(start, requests[..n], max), requests[n], max)
  }

  /** How many of the names are in the bucket of the hash. */
  function Crowd(order: seq<Key>, hash: Key -> int, shape: Shape, at: int): (n: nat)
    requires Sized(shape)
    ensures n <= |order|
  {
    var n := |order| - 1;
    if n < 0 then 0
    else Crowd(order[..n], hash, shape, at) + if SameSlot(shape, at, hash(order[n])) then 1 else 0
  }

  /** A new name is refused if its bucket is full. */
  predicate Refuses(r: Request, order: seq<Key>, hash: Key -> int, shape: Shape, chain: int)
    requires Sized(shape)
  {
    r.Enter? && !Reserved(r.key.name) && r.key !in order && Crowd(order, hash, shape, hash(r.key)) >= chain
  }

  ghost predicate Refusals(requests: seq<Request>, refused: seq<bool>, hash: Key -> int, start: Shape,
                           max: int, chain: int)
    requires |refused| == |requests| && max > 0 && Sized(start)
  {
    forall k: nat :: k < |requests| ==>
      (refused[k] <==> Refuses(requests[k], Order(requests[..k], refused[..k], max), hash,
                               ShapeAfter(start, requests[..k], max), chain))
  }

  lemma Next(requests: seq<Request>, refused: seq<bool>, max: int, k: nat)
    requires |refused| == |requests| && max > 0 && k < |requests|
    ensures AfterAll(requests[..k + 1]) == After(AfterAll(requests[..k]), requests[k])
    ensures Order(requests[..k + 1], refused[..k + 1], max) ==
            Reorder(Order(requests[..k], refused[..k], max), AfterAll(requests[..k]), requests[k], refused[k], max)
  {
    assert requests[..k + 1][..k] == requests[..k] && refused[..k + 1][..k] == refused[..k];
  }

  // ------------------------------------------------------ facts about the reference

  ghost predicate Once(order: seq<Key>) {
    forall i: int, j: int :: 0 <= i < j < |order| ==> order[i] != order[j]
  }

  ghost predicate Within(order: seq<Key>, names: Names) {
    forall key: Key :: key in order ==> key in names
  }

  ghost predicate AllCached(names: Names, order: seq<Key>) {
    forall key: Key :: key in names ==> key in order
  }

  lemma {:induction false} ExceptFacts(order: seq<Key>, gone: set<Key>)
    ensures forall key: Key :: key in Except(order, gone) <==> key in order && key !in gone
    ensures Once(order) ==> Once(Except(order, gone))
    ensures |Except(order, gone)| <= |order|
  {
    if order != [] {
      var rest := order[1..];
      ExceptFacts(rest, gone);
      assert forall key: Key :: key in order <==> key == order[0] || key in rest;
      if Once(order) {
        assert forall i: int, j: int :: 0 <= i < j < |rest| ==> rest[i] == order[i + 1] && rest[j] == order[j + 1];
        assert order[0] !in rest;
      }
    }
  }

  lemma FrontFacts(order: seq<Key>, key: Key, promote: bool)
    ensures forall k: Key :: k in Front(order, key, promote) <==> k in order
    ensures Once(order) ==> Once(Front(order, key, promote))
  {
    hide Except;
    ExceptFacts(order, {key});
  }

  lemma CutFacts(order: seq<Key>, max: int)
    requires max > 0
    ensures forall k: Key :: k in Cut(order, max) ==> k in order
    ensures Once(order) ==> Once(Cut(order, max))
  {
  }

  lemma ReorderWithin(order: seq<Key>, names: Names, r: Request, refused: bool, max: int)
    requires max > 0 && Once(order) && Within(order, names)
    ensures Once(Reorder(order, names, r, refused, max))
    ensures Within(Reorder(order, names, r, refused, max), After(names, r))
  {
    hide Except, Front, Cut;
    match r
    case Enter(key, _, promote) =>
      FrontFacts(order, key, promote);
      CutFacts([key] + order, max);
    case Lookup(key, promote) =>
      FrontFacts(order, key, promote);
    case Delete(_, _) =>
      ExceptFacts(order, names.Keys - After(names, r).Keys);
    case Maintain =>
  }

  /** The list holds live names only, each once. */
  lemma {:induction false} OrderWithin(requests: seq<Request>, refused: seq<bool>, max: int, k: nat)
    requires |refused| == |requests| && max > 0 && k <= |requests|
    ensures Once(Order(requests[..k], refused[..k], max))
    ensures Within(Order(requests[..k], refused[..k], max), AfterAll(requests[..k]))
  {
    if k > 0 {
      OrderWithin(requests, refused, max, k - 1);
      Next(requests, refused, max, k - 1);
      ReorderWithin(Order(requests[..k - 1], refused[..k - 1], max), AfterAll(requests[..k - 1]),
                    requests[k - 1], refused[k - 1], max);
    }
  }

  lemma {:induction false} FewerThanNames(order: seq<Key>, names: Names)
    requires Once(order) && Within(order, names)
    ensures |order| <= |names|
    ensures AllCached(names, order) ==> |order| == |names|
  {
    var keys := set key | key in order;
    KeySet(order);
    assert keys <= names.Keys;
    SubsetSize(keys, names.Keys);
    if AllCached(names, order) {
      assert keys == names.Keys;
    }
  }

  lemma {:induction false} KeySet(order: seq<Key>)
    requires Once(order)
    ensures |set key | key in order| == |order|
  {
    if order != [] {
      var last := order[|order| - 1];
      var rest := order[..|order| - 1];
      assert order == rest + [last];
      KeySet(rest);
      assert last !in rest;
      assert (set key | key in order) == (set key | key in rest) + {last};
    }
  }

  lemma {:induction false} SubsetSize(a: set<Key>, b: set<Key>)
    requires a <= b
    ensures |a| <= |b|
  {
    assert b == a + (b - a);
    assert |b| == |a| + |b - a|;
  }

  // ------------------------------------------------------------ when names are lost

  /** The k-th request enters a name that is not live. */
  ghost predicate New(requests: seq<Request>, k: nat)
    requires k < |requests|
  {
    requests[k].Enter? && !Reserved(requests[k].key.name) && requests[k].key !in AfterAll(requests[..k])
  }

  /** One request loses no name exactly if the name it adds is not refused and there is room for it. */
  lemma StepLoses(order: seq<Key>, names: Names, r: Request, refused: bool, max: int)
    requires max > 0 && Once(order) && Within(order, names) && AllCached(names, order)
    ensures AllCached(After(names, r), Reorder(order, names, r, refused, max)) <==>
            (r.Enter? && !Reserved(r.key.name) && r.key !in names ==> !refused && |names| < max)
  {
    hide Except, Front, Cut;
    FewerThanNames(order, names);
    match r
    case Enter(key, value, promote) =>
      FrontFacts(order, key, promote);
      if !Reserved(key.name) && key !in names {
        AddedLoses(order, names, r, refused, max);
      }
    case Lookup(key, promote) =>
      FrontFacts(order, key, promote);
    case Delete(_, _) =>
      ExceptFacts(order, names.Keys - After(names, r).Keys);
    case Maintain =>
  }

  lemma AddedLoses(order: seq<Key>, names: Names, r: Request, refused: bool, max: int)
    requires max > 0 && Once(order) && Within(order, names) && AllCached(names, order)
    requires r.Enter? && !Reserved(r.key.name) && r.key !in names && |order| == |names|
    ensures AllCached(After(names, r), Reorder(order, names, r, refused, max)) <==> !refused && |names| < max
  {
    var now, all := After(names, r), [r.key] + order;
    assert r.key !in order && r.key in now;
    if !refused && |names| >= max {
      var last := all[|all| - 1];
      assert last in all && last in now;
      assert last !in all[..max];
    }
  }

  lemma NoneYet(requests: seq<Request>, refused: seq<bool>, max: int)
    requires |refused| == |requests| && max > 0
    ensures AllCached(AfterAll(requests[..0]), Order(requests[..0], refused[..0], max))
  {
  }

  /**
    * No live name is ever missing from the cache exactly if every new name is entered while
    * fewer than `max` names are live and is not refused.
    */
  lemma {:induction false} NothingLost(requests: seq<Request>, refused: seq<bool>, max: int, n: nat)
    requires |refused| == |requests| && max > 0 && n <= |requests|
    ensures (forall k: nat :: k <= n ==>
              AllCached(AfterAll(requests[..k]), Order(requests[..k], refused[..k], max))) <==>
            (forall k: nat :: k < n && New(requests, k) ==> !refused[k] && |AfterAll(requests[..k])| < max)
  {
    hide Order, AfterAll, Reorder, After, AllCached;
    if n == 0 {
      NoneYet(requests, refused, max);
    } else {
      var k := n - 1;
      NothingLost(requests, refused, max, k);
      var order, names := Order(requests[..k], refused[..k], max), AfterAll(requests[..k]);
      if AllCached(names, order) {
        OrderWithin(requests, refused, max, k);
        Next(requests, refused, max, k);
        StepLoses(order, names, requests[k], refused[k], max);
      }
    }
  }

  /** Every new name comes while fewer names are live than the cache holds and than fill a bucket. */
  ghost predicate Roomy(requests: seq<Request>, max: int, chain: int) {
    forall k: nat :: k < |requests| && New(requests, k) ==>
      |AfterAll(requests[..k])| < max && |AfterAll(requests[..k])| < chain
  }

  lemma RoomyFinds(requests: seq<Request>, refused: seq<bool>, hash: Key -> int, start: Shape,
                   max: int, chain: int, n: nat)
    requires |refused| == |requests| && max > 0 && n <= |requests| && Sized(start)
    requires Refusals(requests, refused, hash, start, max, chain) && Roomy(requests[..n], max, chain)
    ensures AllCached(AfterAll(requests[..n]), Order(requests[..n], refused[..n], max))
  {
    hide Order, AfterAll, ShapeAfter, Crowd;
    forall k: nat | k < n && New(requests, k) ensures !refused[k] && |AfterAll(requests[..k])| < max {
      assert requests[..n][..k] == requests[..k];
      assert New(requests[..n], k);
      OrderWithin(requests, refused, max, k);
      FewerThanNames(Order(requests[..k], refused[..k], max), AfterAll(requests[..k]));
    }
    NothingLost(requests, refused, max, n);
  }

  // ------------------------------------------------------------- how long a name stays

  // The request may put another name before this one.
  predicate Passes(r: Request, key: Key) {
    (r.Enter? || (r.Lookup? && r.promote)) && r.key != key
  }

  function Passed(requests: seq<Request>, key: Key): nat {
    if requests == [] then 0
    else Passed(requests[..|requests| - 1], key) + if Passes(requests[|requests| - 1], key) then 1 else 0
  }

  lemma {:induction false} ExceptPlace(order: seq<Key>, gone: set<Key>, p: nat)
    requires p < |order| && order[p] !in gone
    ensures exists q: nat :: q <= p && q < |Except(order, gone)| && Except(order, gone)[q] == order[p]
  {
    if p == 0 {
      assert Except(order, gone)[0] == order[0];
    } else {
      ExceptPlace(order[1..], gone, p - 1);
      var rest := Except(order[1..], gone);
      var q: nat :| q <= p - 1 && q < |rest| && rest[q] == order[1..][p - 1];
      if order[0] in gone {
        assert Except(order, gone)[q] == order[p];
      } else {
        assert Except(order, gone)[q + 1] == order[p];
      }
    }
  }

  ghost predicate Near(order: seq<Key>, key: Key, p: nat) {
    exists q: nat :: q <= p && q < |order| && order[q] == key
  }

  lemma NearIn(order: seq<Key>, key: Key, p: nat)
    requires Near(order, key, p)
    ensures key in order
  {
  }

  lemma StepNear(order: seq<Key>, names: Names, r: Request, refused: bool, max: int, key: Key, p: nat)
    requires max > 0 && Near(order, key, p) && key in names && key in After(names, r)
    requires p + (if Passes(r, key) then 1 else 0) < max
    ensures Near(Reorder(order, names, r, refused, max), key, p + if Passes(r, key) then 1 else 0)
  {
    hide Except;
    var q: nat :| q <= p && q < |order| && order[q] == key;
    var now := Reorder(order, names, r, refused, max);
    if r.Delete? {
      ExceptPlace(order, names.Keys - After(names, r).Keys, q);
    } else if now == order {
      assert now[q] == key;
    } else if r.key == key {
      assert now[0] == key;
    } else if r.key in order {
      ExceptPlace(order, {r.key}, q);
      var rest := Except(order, {r.key});
      var i: nat :| i <= q && i < |rest| && rest[i] == key;
      assert now[i + 1] == key;
    } else {
      assert now[q + 1] == key;
    }
  }

  /**
    * Whatever else happens, a name that stays live stays cached until as many uses of other
    * names have passed as the cache holds.
    */
  lemma {:induction false} RecentStays(requests: seq<Request>, refused: seq<bool>, max: int,
                                       key: Key, p: nat, i: nat, j: nat)
    requires |refused| == |requests| && max > 0 && i <= j <= |requests|
    requires Near(Order(requests[..i], refused[..i], max), key, p)
    requires forall k: nat :: i <= k <= j ==> key in AfterAll(requests[..k])
    requires p + Passed(requests[i..j], key) < max
    ensures Near(Order(requests[..j], refused[..j], max), key, p + Passed(requests[i..j], key))
    ensures key in Order(requests[..j], refused[..j], max)
    decreases j
  {
    hide Order, AfterAll, Reorder, Near;
    if i == j {
      assert requests[i..j] == [];
    } else {
      var k := j - 1;
      assert requests[i..j][..k - i] == requests[i..k] && requests[i..j][k - i] == requests[k];
      RecentStays(requests, refused, max, key, p, i, k);
      Next(requests, refused, max, k);
      StepNear(Order(requests[..k], refused[..k], max), AfterAll(requests[..k]), requests[k], refused[k], max, key,
               p + Passed(requests[i..k], key));
    }
    NearIn(Order(requests[..j], refused[..j], max), key, p + Passed(requests[i..j], key));
  }

  // The request leaves the name at the front of the list.
  predicate Fronts(r: Request, order: seq<Key>, refused: bool, key: Key) {
    match r
    case Enter(k, _, promote) =>
      k == key && !Reserved(key.name) && if key in order then promote else !refused
    case Lookup(k, promote) => k == key && key.name != "." && key in order && promote
    case _ => false
  }

  /** A name entered, or used and promoted, is found by every lookup before it is deleted or that happens. */
  lemma FoundWhileRecent(requests: seq<Request>, refused: seq<bool>, max: int, key: Key, i: nat, j: nat)
    requires |refused| == |requests| && max > 0 && i < j <= |requests|
    requires Fronts(requests[i], Order(requests[..i], refused[..i], max), refused[i], key)
    requires forall k: nat :: i < k <= j ==> key in AfterAll(requests[..k])
    requires Passed(requests[i + 1..j], key) < max
    ensures key in Order(requests[..j], refused[..j], max)
  {
    hide Order, AfterAll;
    Next(requests, refused, max, i);
    assert Order(requests[..i + 1], refused[..i + 1], max)[0] == key;
    assert Near(Order(requests[..i + 1], refused[..i + 1], max), key, 0);
    RecentStays(requests, refused, max, key, 0, i + 1, j);
  }

  // ---------------------------------------------------------- the cache against it

  ghost predicate OneName(names: Names) {
    forall k: Key, l: Key :: k in names && l in names && k != l ==> k.mnt != l.mnt || names[k].deno != names[l].deno
  }

  /** Everything cached is a name entered and not deleted, with its value. */
  ghost predicate Coherent(entries: map<int, Entry>, names: Names) {
    forall x: int :: x in entries ==>
      entries[x].key in names && names[entries[x].key] == Value(entries[x].ino, entries[x].deno)
  }

  /** The list by last use holds the names in this order. */
  ghost predicate Ordered(entries: map<int, Entry>, lru: seq<int>, order: seq<Key>) {
    && |lru| == |order|
    && forall i: int :: 0 <= i < |lru| ==> lru[i] in entries && entries[lru[i]].key == order[i]
  }

  lemma CoherentUnique(entries: map<int, Entry>, names: Names)
    requires Coherent(entries, names) && OneName(names) && UniqueKeys(entries)
    ensures UniqueDenos(entries)
  {
  }

  /** The members of one slot among the names of the list. */
  lemma {:induction false} SlotSize(entries: map<int, Entry>, lru: seq<int>, order: seq<Key>, hash: Key -> int,
                                    shape: Shape, at: int, slot: seq<int>)
    requires Ordered(entries, lru, order) && Distinct(lru) && Distinct(slot) && Sized(shape)
    requires forall x: int :: x in slot <==> x in lru && x in entries && SameSlot(shape, at, hash(entries[x].key))
    ensures |slot| == Crowd(order, hash, shape, at)
    decreases |lru|
  {
    hide SameSlot, Without;
    if lru == [] {
      NoMembers(slot);
    } else {
      var n := |lru| - 1;
      var x, rest := lru[n], lru[..n];
      assert lru == rest + [x] && x !in rest;
      WithoutFacts(slot, x);
      if x in slot {
        SlotSize(entries, rest, order[..n], hash, shape, at, Without(slot, x));
      } else {
        SlotSize(entries, rest, order[..n], hash, shape, at, slot);
      }
    }
  }

  lemma BucketSize(entries: map<int, Entry>, names: Table, denos: Table, lru: seq<int>, order: seq<Key>,
                   hash: Key -> int, at: int)
    requires Linked(entries, names, denos, lru) && Ordered(entries, lru, order)
    requires forall x: int :: x in entries ==> entries[x].nh == hash(entries[x].key)
    ensures names.main != [] && Sized(ShapeOf(names)) && |Bucket(names, at)| == Crowd(order, hash, ShapeOf(names), at)
  {
    hide Holds, Bucket, Ordered, Crowd, SameSlot;
    NonEmpty(names, NameHashes(entries));
    BucketDistinct(names, NameHashes(entries), at);
    var slot, shape := Bucket(names, at), ShapeOf(names);
    forall x: int
      ensures x in slot <==> x in lru && x in entries && SameSlot(shape, at, hash(entries[x].key))
    {
      BucketIs(names, NameHashes(entries), at, x);
    }
    SlotSize(entries, lru, order, hash, shape, at, slot);
  }

  lemma ListedUnique(entries: map<int, Entry>, names: Table, denos: Table, lru: seq<int>)
    requires Linked(entries, names, denos, lru)
    ensures Listed(lru, entries) && UniqueKeys(entries)
  {
  }

  /** The cached names are those of the order. */
  lemma OrderedKeys(entries: map<int, Entry>, lru: seq<int>, order: seq<Key>, key: Key)
    requires Ordered(entries, lru, order) && Listed(lru, entries)
    ensures |lru| == |order| && (key in order <==> Cached(entries, key))
  {
    if key in order {
      var i :| 0 <= i < |order| && order[i] == key;
      assert entries[lru[i]].key == key;
    }
    if Cached(entries, key) {
      var x: int :| x in entries && entries[x].key == key;
      assert x in lru;
      var i :| 0 <= i < |lru| && lru[i] == x;
      assert order[i] == key;
    }
  }

  lemma {:induction false} ExceptNone(order: seq<Key>, gone: set<Key>)
    requires forall i: int :: 0 <= i < |order| ==> order[i] !in gone
    ensures Except(order, gone) == order
  {
    if order != [] {
      ExceptNone(order[1..], gone);
      assert order == [order[0]] + order[1..];
    }
  }

  lemma {:induction false} ExceptAt(order: seq<Key>, gone: set<Key>, p: nat)
    requires p < |order| && forall i: int :: 0 <= i < |order| ==> (order[i] in gone <==> i == p)
    ensures Except(order, gone) == order[..p] + order[p + 1..]
  {
    if p == 0 {
      ExceptNone(order[1..], gone);
    } else {
      ExceptAt(order[1..], gone, p - 1);
      assert order[..p] == [order[0]] + order[1..][..p - 1] && order[p + 1..] == order[1..][p..];
    }
  }

  /** An entry taken out of the list takes its name out of the order. */
  lemma OrderedWithout(entries: map<int, Entry>, lru: seq<int>, order: seq<Key>, x: int, gone: set<Key>)
    requires Ordered(entries, lru, order) && Distinct(lru) && x in lru
    requires forall y: int :: y in entries ==> (entries[y].key in gone <==> y == x)
    ensures Ordered(entries, Without(lru, x), Except(order, gone))
  {
    hide Without, Except;
    var p :| 0 <= p < |lru| && lru[p] == x;
    WithoutAt(lru, p);
    ExceptAt(order, gone, p);
  }

  lemma OrderedUsed(entries: map<int, Entry>, lru: seq<int>, order: seq<Key>, x: int, promote: bool)
    requires Ordered(entries, lru, order) && Listed(lru, entries) && UniqueKeys(entries) && x in entries
    ensures Ordered(entries, Used(lru, x, promote), Front(order, entries[x].key, promote))
  {
    hide Without, Except;
    OrderedKeys(entries, lru, order, entries[x].key);
    if promote {
      OrderedWithout(entries, lru, order, x, {entries[x].key});
    }
  }

  lemma OrderedDeleted(entries: map<int, Entry>, lru: seq<int>, order: seq<Key>, x: int, gone: set<Key>)
    requires Ordered(entries, lru, order) && Listed(lru, entries) && x in entries
    requires forall y: int :: y in entries ==> (entries[y].key in gone <==> y == x)
    ensures Ordered(entries - {x}, Without(lru, x), Except(order, gone))
  {
    hide Except;
    OrderedWithout(entries, lru, order, x, gone);
    WithoutFacts(lru, x);
    var rest := Without(lru, x);
    forall i: int | 0 <= i < |rest| ensures rest[i] in entries - {x} {
      assert rest[i] in rest;
    }
  }

  /** How the list by last use and the entries change when a name is added. */
  lemma OrderedAdded(was: map<int, Entry>, now: map<int, Entry>, lru: seq<int>, order: seq<Key>, x: int, max: int)
    requires Ordered(was, lru, order) && max > 0 && x in now
    requires forall y: int :: y in Fresh(lru, x, max) ==> y in now
    requires forall y: int :: y in now && y != x ==> y in was && now[y] == was[y]
    requires x !in was
    ensures Ordered(now, Fresh(lru, x, max), Cut([now[x].key] + order, max))
  {
    var l := Fresh(lru, x, max);
    forall i: int | 0 <= i < |l| ensures l[i] in now && now[l[i]].key == ([now[x].key] + order)[i] {
      assert l[i] in l && (i > 0 ==> l[i] == lru[i - 1] && l[i] in was);
    }
  }

  function Fresh(lru: seq<int>, x: int, max: int): seq<int>
    requires max > 0
  {
    if |lru| + 1 > max then ([x] + lru)[..max] else [x] + lru
  }

  // --------------------------------------------------------------------- requests

  method EnterOne(c: Cache, r: Request, node: int, ghost names: Names, ghost order: seq<Key>)
    returns (ghost refused: bool)
    requires c.Valid() && r.Enter? && Proper(names, r) && Coherent(c.entries, names) && Ordered(c.entries, c.lru, order)
    requires c.count <= c.Max() && forall x: int :: x in c.entries ==> x < node
    modifies c
    ensures c.Valid() && c.limit == old(c.limit) && c.maxChain == old(c.maxChain) && c.count <= c.Max()
    ensures Coherent(c.entries, After(names, r)) && forall x: int :: x in c.entries ==> x <= node
    ensures Ordered(c.entries, c.lru, Reorder(order, names, r, refused, c.Max()))
    ensures Sized(ShapeOf(old(c.names))) && ShapeOf(c.names) == Reshaped(ShapeOf(old(c.names)), r, c.Max())
    ensures refused <==> Refuses(r, order, c.nameHash, ShapeOf(old(c.names)), c.maxChain)
  {
    hide Linked, Bucket, Without, NameHashes, DenoHashes, Coherent, After, Proper, Ordered, Listed, Front;
    BucketSize(c.entries, c.names, c.denos, c.lru, order, c.nameHash, c.nameHash(r.key));
    ListedUnique(c.entries, c.names, c.denos, c.lru);
    OrderedKeys(c.entries, c.lru, order, r.key);
    ghost var was, lru := c.entries, c.lru;
    EnterAgrees(was, names, r);
    var added := c.Enter(r.key, r.value.ino, r.value.deno, node, r.promote);
    ListedUnique(c.entries, c.names, c.denos, c.lru);
    EnterCoherent(was, c.entries, names, r, node);
    refused := !added && !Reserved(r.key.name) && r.key !in order;
    if added {
      OrderedEnter(was, c.entries, lru, order, names, r, node, c.Max());
    } else if Cached(was, r.key) && !Reserved(r.key.name) {
      ghost var x: int :| x in was && was[x].key == r.key;
      OrderedUsed(was, lru, order, x, r.promote);
    }
  }

  lemma OrderedEnter(was: map<int, Entry>, now: map<int, Entry>, lru: seq<int>, order: seq<Key>, names: Names,
                     r: Request, x: int, max: int)
    requires Ordered(was, lru, order) && max > 0 && x in now && x !in was && Listed(Fresh(lru, x, max), now)
    requires forall y: int :: y in now && y != x ==> y in was && now[y] == was[y]
    requires r.Enter? && !Reserved(r.key.name) && r.key !in order && now[x].key == r.key
    ensures Ordered(now, Fresh(lru, x, max), Reorder(order, names, r, false, max))
  {
    hide Ordered, Fresh;
    OrderedAdded(was, now, lru, order, x, max);
  }

  method Serve(c: Cache, r: Request, node: int, ghost names: Names, ghost order: seq<Key>)
    returns (answer: Option<int>, ghost refused: bool)
    requires c.Valid() && Proper(names, r) && OneName(names) && Coherent(c.entries, names)
    requires Ordered(c.entries, c.lru, order) && c.count <= c.Max() && forall x: int :: x in c.entries ==> x < node
    modifies c
    ensures c.Valid() && c.limit == old(c.limit) && c.maxChain == old(c.maxChain) && c.count <= c.Max()
    ensures OneName(After(names, r)) && Coherent(c.entries, After(names, r))
    ensures forall x: int :: x in c.entries ==> x <= node
    ensures Ordered(c.entries, c.lru, Reorder(order, names, r, refused, c.Max()))
    ensures Sized(ShapeOf(old(c.names))) && ShapeOf(c.names) == Reshaped(ShapeOf(old(c.names)), r, c.Max())
    ensures refused <==> Refuses(r, order, c.nameHash, ShapeOf(old(c.names)), c.maxChain)
    ensures answer == Reply(names, order, r)
  {
    hide Linked, Bucket, Without, NameHashes, DenoHashes, Coherent, Ordered, Listed;
    answer, refused := None, false;
    HasBuckets(c.entries, c.names, c.denos, c.lru);
    StillOneName(names, r);
    match r
    case Enter(_, _, _) =>
      refused := EnterOne(c, r, node, names, order);
    case Lookup(key, promote) =>
      answer := LookupOne(c, key, promote, names, order);
    case Delete(mnt, deno) =>
      DeleteOne(c, mnt, deno, names, order);
    case Maintain =>
      if Expanding(c.names) {
        var _ := c.MoveBucket();
      }
  }

  lemma StillOneName(names: Names, r: Request)
    requires OneName(names) && Proper(names, r)
    ensures OneName(After(names, r))
  {
  }

  method LookupOne(c: Cache, key: Key, promote: bool, ghost names: Names, ghost order: seq<Key>)
    returns (answer: Option<int>)
    requires c.Valid() && Coherent(c.entries, names) && Ordered(c.entries, c.lru, order)
    modifies c`lru
    ensures c.Valid() && Ordered(c.entries, c.lru, if key.name == "." then order else Front(order, key, promote))
    ensures answer == Reply(names, order, Lookup(key, promote))
  {
    hide Linked, Without, NameHashes, DenoHashes, Ordered, Listed, Except, Used;
    ListedUnique(c.entries, c.names, c.denos, c.lru);
    OrderedKeys(c.entries, c.lru, order, key);
    ghost var lru := c.lru;
    var found, ino := c.Lookup(key, promote);
    answer := if found then Some(ino) else None;
    if Cached(c.entries, key) {
      ghost var x: int :| x in c.entries && c.entries[x].key == key;
      OrderedUsed(c.entries, lru, order, x, promote);
    }
  }

  lemma EnterAgrees(entries: map<int, Entry>, names: Names, r: Request)
    requires r.Enter? && Coherent(entries, names) && Proper(names, r)
    ensures forall x: int :: x in entries && entries[x].key == r.key ==>
      entries[x].ino == r.value.ino && entries[x].deno == r.value.deno
  {
  }

  lemma EnterCoherent(was: map<int, Entry>, now: map<int, Entry>, names: Names, r: Request, node: int)
    requires r.Enter? && Coherent(was, names) && Proper(names, r)
    requires forall x: int :: x in now && x in was ==> now[x] == was[x]
    requires forall x: int :: x in now && x !in was ==>
      !Reserved(r.key.name) && now[x].key == r.key && now[x].ino == r.value.ino && now[x].deno == r.value.deno
    ensures Coherent(now, After(names, r))
  {
  }

  method DeleteOne(c: Cache, mnt: int, deno: int, ghost names: Names, ghost order: seq<Key>)
    requires c.Valid() && OneName(names) && Coherent(c.entries, names) && Ordered(c.entries, c.lru, order)
    modifies c
    ensures c.Valid() && c.count <= old(c.count) && c.limit == old(c.limit) && c.maxChain == old(c.maxChain)
    ensures forall x: int :: x in c.entries ==> x in old(c.entries)
    ensures Coherent(c.entries, After(names, Delete(mnt, deno)))
    ensures Ordered(c.entries, c.lru, Except(order, names.Keys - After(names, Delete(mnt, deno)).Keys))
    ensures ShapeOf(c.names) == ShapeOf(old(c.names))
  {
    hide Linked, Bucket, Without, NameHashes, DenoHashes, Ordered, Except, Listed;
    ghost var was, lru, gone := c.entries, c.lru, names.Keys - After(names, Delete(mnt, deno)).Keys;
    ListedUnique(was, c.names, c.denos, lru);
    CoherentUnique(was, names);
    var found, x := c.DeleteByDeno(mnt, deno);
    if found {
      OrderedDeleted(was, lru, order, x, gone);
    } else {
      OrderedAll(was, lru, order, gone);
    }
  }

  lemma OrderedAll(entries: map<int, Entry>, lru: seq<int>, order: seq<Key>, gone: set<Key>)
    requires Ordered(entries, lru, order) && forall y: int :: y in entries ==> entries[y].key !in gone
    ensures Except(order, gone) == order
  {
    hide Except;
    forall i: int | 0 <= i < |order| ensures order[i] !in gone {
      var y := lru[i];
      assert y in entries && entries[y].key !in gone;
      assert entries[y].key == order[i];
    }
    ExceptNone(order, gone);
  }

  /**
    * Over any requests the cache holds exactly the names the reference keeps, in its order, and
    * answers as the reference does, wherever the move between the tables stands: a lookup finds
    * exactly the names kept, with their inodes.  A new name is refused exactly if its bucket,
    * as sized and moved by the requests before, is full.  As long as every new
    * name comes while there is room, every name entered and not deleted is found.
    */
  method Run(c: Cache, requests: seq<Request>) returns (answers: seq<Option<int>>, ghost refused: seq<bool>)
    requires c.Valid() && c.entries == map[] && c.count == 0
    requires forall k: nat :: k < |requests| ==> Proper(AfterAll(requests[..k]), requests[k])
    modifies c
    ensures c.Valid() && c.count <= c.Max() == old(c.Max()) && |answers| == |refused| == |requests|
    ensures Ordered(c.entries, c.lru, Order(requests, refused, c.Max())) && Coherent(c.entries, AfterAll(requests))
    ensures Sized(ShapeOf(old(c.names)))
    ensures Refusals(requests, refused, c.nameHash, ShapeOf(old(c.names)), c.Max(), old(c.maxChain))
    ensures Replies(requests, refused, c.Max(), answers)
    ensures forall k: nat :: k < |requests| && Roomy(requests[..k], c.Max(), old(c.maxChain)) ==>
      requests[k].Lookup? && requests[k].key in AfterAll(requests[..k]) ==> answers[k].Some?
  {
    hide Linked, AfterAll, Order, Reorder, Refusals, Roomy, ShapeAfter;
    answers, refused := [], [];
    ghost var max, chain, start := c.Max(), c.maxChain, ShapeOf(c.names);
    HasBuckets(c.entries, c.names, c.denos, c.lru);
    Begin(requests, c.nameHash, start, max, chain);
    for k := 0 to |requests|
      invariant c.Valid() && c.count <= c.Max() == max && c.maxChain == chain && |answers| == |refused| == k
      invariant forall x: int :: x in c.entries ==> x < k
      invariant OneName(AfterAll(requests[..k])) && Coherent(c.entries, AfterAll(requests[..k]))
      invariant Ordered(c.entries, c.lru, Order(requests[..k], refused, max))
      invariant ShapeOf(c.names) == ShapeAfter(start, requests[..k], max)
      invariant Refusals(requests[..k], refused, c.nameHash, start, max, chain)
      invariant Replies(requests[..k], refused, max, answers)
    {
      ghost var names, order := AfterAll(requests[..k]), Order(requests[..k], refused, max);
      var answer, no := Serve(c, requests[k], k, names, order);
      More(requests, refused, c.nameHash, start, max, chain, k, no);
      Replied(requests, refused, max, answers, k, answer, no);
      answers, refused := answers + [answer], refused + [no];
    }
    assert requests[..|requests|] == requests;
    forall k: nat | k < |requests| && Roomy(requests[..k], max, chain) && requests[k].Lookup?
                    && requests[k].key in AfterAll(requests[..k]) ensures answers[k].Some? {
      RoomyFinds(requests, refused, c.nameHash, start, max, chain, k);
    }
  }

  /** Every lookup is answered from the names kept. */
  ghost predicate Replies(requests: seq<Request>, refused: seq<bool>, max: int, answers: seq<Option<int>>)
    requires |refused| == |requests| && max > 0
  {
    && |answers| == |requests|
    && forall k: nat :: k < |requests| ==>
         answers[k] == Reply(AfterAll(requests[..k]), Order(requests[..k], refused[..k], max), requests[k])
  }

  lemma Begin(requests: seq<Request>, hash: Key -> int, start: Shape, max: int, chain: int)
    requires max > 0 && Sized(start)
    ensures AfterAll(requests[..0]) == map[] && Order(requests[..0], [], max) == []
    ensures ShapeAfter(start, requests[..0], max) == start
    ensures Refusals(requests[..0], [], hash, start, max, chain) && Replies(requests[..0], [], max, [])
  {
  }

  lemma More(requests: seq<Request>, refused: seq<bool>, hash: Key -> int, start: Shape, max: int, chain: int, k: nat,
             no: bool)
    requires max > 0 && |refused| == k < |requests| && Sized(start)
    requires Refusals(requests[..k], refused, hash, start, max, chain)
    requires no <==> Refuses(requests[k], Order(requests[..k], refused, max), hash,
                             ShapeAfter(start, requests[..k], max), chain)
    ensures AfterAll(requests[..k + 1]) == After(AfterAll(requests[..k]), requests[k])
    ensures ShapeAfter(start, requests[..k + 1], max) ==
            Reshaped(ShapeAfter(start, requests[..k], max), requests[k], max)
    ensures Order(requests[..k + 1], refused + [no], max) ==
            Reorder(Order(requests[..k], refused, max), AfterAll(requests[..k]), requests[k], no, max)
    ensures Refusals(requests[..k + 1], refused + [no], hash, start, max, chain)
  {
    hide AfterAll, Order, ShapeAfter, Refuses;
    var now, said := requests[..k + 1], refused + [no];
    Next(now, said, max, k);
    NextShape(now, start, max, k);
    assert now[..k + 1] == now && said[..k + 1] == said && now[..k] == requests[..k] && said[..k] == refused;
    assert forall i: nat :: i < k ==> now[..i] == requests[..k][..i] && said[..i] == refused[..i];
  }

  lemma NextShape(requests: seq<Request>, start: Shape, max: int, k: nat)
    requires k < |requests| && Sized(start)
    ensures ShapeAfter(start, requests[..k + 1], max) ==
            Reshaped(ShapeAfter(start, requests[..k], max), requests[k], max)
  {
    assert requests[..k + 1][..k] == requests[..k];
  }

  lemma Replied(requests: seq<Request>, refused: seq<bool>, max: int, answers: seq<Option<int>>, k: nat,
                answer: Option<int>, no: bool)
    requires max > 0 && |refused| == k < |requests|
    requires Replies(requests[..k], refused, max, answers)
    requires answer == Reply(AfterAll(requests[..k]), Order(requests[..k], refused, max), requests[k])
    ensures Replies(requests[..k + 1], refused + [no], max, answers + [answer])
  {
    hide AfterAll, Order, Reply;
    var now, said := requests[..k + 1], refused + [no];
    assert now[..k] == requests[..k] && said[..k] == refused;
    assert forall i: nat :: i < k ==> now[..i] == requests[..k][..i] && said[..i] == refused[..i];
  }
}
