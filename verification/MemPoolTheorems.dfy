/**
  What clients of the pool can rely on in every run: where elements are, what
  the lists in memory are, and when an allocation may fail.
 */
module MemPoolTheorems {
  import opened MemPool
  import opened MemPoolOwnership
  import opened MemPoolSafety

  /** Read a list of n elements off memory, starting at index i. */
  function Follow(localNext: seq<int>, i: int, n: nat): (c: seq<int>)
    ensures |c| == n
    decreases n
  {
    if n == 0 then [] else [i] + Follow(localNext, if 0 <= i < |localNext| then localNext[i] else 0, n - 1)
  }

  lemma {:induction false} FollowLinked(localNext: seq<int>, c: seq<nat>)
    requires Linked(localNext, c)
    ensures Follow(localNext, First(c), |c|) == c
  {
    if c != [] {
      FollowLinked(localNext, c[1..]);
      assert [c[0]] + c[1..] == c;
    }
  }

  /**
    In every run, the elements read off memory from a local head, as many as its
    size field says, are distinct elements owned by that list and by nobody
    else, and the list ends there.
   */
  lemma LocalListInMemory(c: Config, states: seq<State>, events: seq<Event>, k: nat, j: nat)
    requires Run(c, states, events) && k < |states| && j < c.lists && |states[k].heads.local| == c.lists
    ensures ListRead(c, states[k].mem, states[k].own, states[k].heads.local[j], Loc(j))
  {
    RunInv(c, states, events, k);
    var s := states[k];
    assert LocalInv(c, s.mem, s.heads, s.own, j) && OwnInv(s.own);
    hide PoolInv, Run;
    HeadedList(c, s.mem, s.heads, s.own, j);
  }

  lemma HeadedList(c: Config, mem: Mem, heads: Heads, own: Own, j: nat)
    requires j < |heads.local| && LocalInv(c, mem, heads, own, j) && OwnInv(own)
    ensures ListRead(c, mem, own, heads.local[j], Loc(j))
  {
    var l := At(own, Loc(j));
    FollowLinked(mem.localNext, l);
    NonEmptyFirst(mem.localNext, l);
    assert NoDup(l);
    OwnedExactly(own, Loc(j));
    hide OwnInv;
    if l != [] {
      LastLink(mem.localNext, l);
    }
  }

  /** What following the links from head p yields, when p heads owner o's list. */
  ghost predicate ListRead(c: Config, mem: Mem, own: Own, p: Ptr, o: Owner) {
    var l := Follow(mem.localNext, p.idx, Size(p));
    && Size(p) <= c.limit
    && (Size(p) == 0 <==> p.idx == 0)
    && (forall a, b | 0 <= a < b < |l| :: l[a] != l[b])
    && (forall i: nat :: i in l <==> i in own.place && own.place[i] == o)
    && (l != [] ==> 0 <= l[|l| - 1] < |mem.localNext| && mem.localNext[l[|l| - 1]] == 0)
  }

  // ---- the global list and what threads hold, read off memory

  /** Read n chain heads off memory, starting at index i. */
  function FollowGlobal(globalNext: seq<nat>, i: nat, n: nat): (g: seq<nat>)
    decreases n
  {
    if n == 0 then [] else [i] + FollowGlobal(globalNext, if i < |globalNext| then globalNext[i] else 0, n - 1)
  }

  lemma {:induction false} FollowGlobalLinked(globalNext: seq<nat>, g: seq<nat>)
    requires GlobalLinked(globalNext, g)
    ensures FollowGlobal(globalNext, First(g), |g|) == g
    ensures g == [] || (g[|g| - 1] < |globalNext| && globalNext[g[|g| - 1]] == 0)
  {
    if g != [] {
      FollowGlobalLinked(globalNext, g[1..]);
      assert [g[0]] + g[1..] == g;
    }
  }

  /** The links from i on give the owner's elements, each once, and end there. */
  ghost predicate ChainRead(c: Config, mem: Mem, own: Own, i: nat, o: Owner) {
    var l := Follow(mem.localNext, i, c.limit + 1);
    && (forall a, b | 0 <= a < b < |l| :: l[a] != l[b])
    && (forall e: nat :: e in l <==> e in own.place && own.place[e] == o)
    && 0 <= l[c.limit] < |mem.localNext| && mem.localNext[l[c.limit]] == 0
  }

  ghost predicate GlobalRead(c: Config, mem: Mem, own: Own, head: nat, n: nat) {
    var g := FollowGlobal(mem.globalNext, head, n);
    && NoDup(g) && (n == 0 <==> head == 0)
    && (g != [] ==> g[|g| - 1] < |mem.globalNext| && mem.globalNext[g[|g| - 1]] == 0)
    && (forall i | i in g :: ChainRead(c, mem, own, i, Glob(i)))
    && (forall e: nat | e in own.place && own.place[e].Glob? :: own.place[e].head in g)
  }

  /**
    In every run, the chain heads read off memory from the global head are distinct and end in
    0; the chain read from each is a full one and is all that place holds; and no element is
    owned by a chain that is not in the list.
   */
  lemma GlobalListInMemory(c: Config, states: seq<State>, events: seq<Event>, k: nat)
    requires Run(c, states, events) && k < |states|
    ensures GlobalRead(c, states[k].mem, states[k].own, states[k].heads.global.idx, |states[k].heads.listed|)
  {
    RunInv(c, states, events, k);
    hide Run, Linked, FullChain;
    var s := states[k];
    GlobalHeads(c, s.mem, s.heads, s.own);
    forall i | i in s.heads.listed ensures ChainRead(c, s.mem, s.own, i, Glob(i)) {
      HeadedChain(c, s.mem, s.own, i, Glob(i));
    }
    forall e: nat | e in s.own.place && s.own.place[e].Glob? ensures s.own.place[e].head in s.heads.listed {
      assert e in At(s.own, s.own.place[e]);
    }
  }

  lemma GlobalHeads(c: Config, mem: Mem, heads: Heads, own: Own)
    requires GlobalInv(c, mem, heads, own)
    ensures FollowGlobal(mem.globalNext, heads.global.idx, |heads.listed|) == heads.listed
    ensures |heads.listed| == 0 <==> heads.global.idx == 0
    ensures heads.listed != [] ==>
      var last := heads.listed[|heads.listed| - 1]; last < |mem.globalNext| && mem.globalNext[last] == 0
  {
    FollowGlobalLinked(mem.globalNext, heads.listed);
  }

  lemma HeadedChain(c: Config, mem: Mem, own: Own, i: nat, o: Owner)
    requires OwnInv(own) && o != Client && FullChain(c, mem, At(own, o), i)
    ensures ChainRead(c, mem, own, i, o)
  {
    var l := At(own, o);
    FollowLinked(mem.localNext, l);
    LastLink(mem.localNext, l);
    assert NoDup(l);
    OwnedExactly(own, o);
  }

  /** What a thread holds, from its own variables and memory. */
  ghost predicate HandRead(c: Config, mem: Mem, own: Own, x: Tid, th: Thread) {
    if th.Recycle? then HoldsOnly(own, x, th.i)
    else if th.GlobalPush? then ChainRead(c, mem, own, th.i, Fly(x))
    else if th.Alloc? && th.a.Mark? then HoldsOnly(own, x, th.a.i)
    else if th.Alloc? && (th.a.BulkNext? || th.a.BulkCas?) then ChainRead(c, mem, own, th.a.i, Fly(x))
    else forall e: nat :: e in own.place ==> own.place[e] != Fly(x)
  }

  ghost predicate HoldsOnly(own: Own, x: Tid, i: nat) {
    forall e: nat :: e in own.place && own.place[e] == Fly(x) <==> e == i
  }

  /** In every run, what a thread has in flight is what it has in hand: one element, one full chain or nothing. */
  lemma InFlightInMemory(c: Config, states: seq<State>, events: seq<Event>, k: nat, x: Tid)
    requires Run(c, states, events) && k < |states| && x in states[k].threads
    ensures HandRead(c, states[k].mem, states[k].own, x, states[k].threads[x])
  {
    RunInv(c, states, events, k);
    var s := states[k];
    assert ThreadInv(c, s.mem, s.heads, s.own, x, s.threads[x]) && OwnInv(s.own);
    hide Run, PoolInv;
    InHand(c, s.mem, s.heads, s.own, x, s.threads[x]);
  }

  lemma InHand(c: Config, mem: Mem, heads: Heads, own: Own, x: Tid, th: Thread)
    requires OwnInv(own) && ThreadInv(c, mem, heads, own, x, th)
    ensures HandRead(c, mem, own, x, th)
  {
    hide ChainRead, FullChain;
    OwnedExactly(own, Fly(x));
    if th.GlobalPush? {
      HeadedChain(c, mem, own, th.i, Fly(x));
    } else if th.Alloc? && (th.a.BulkNext? || th.a.BulkCas?) {
      HeadedChain(c, mem, own, th.a.i, Fly(x));
    }
  }

  lemma OwnedExactly(own: Own, o: Owner)
    requires OwnInv(own) && o != Client
    ensures forall i: nat :: i in At(own, o) <==> i in own.place && own.place[i] == o
  {
  }

  lemma {:induction false} LastLink(localNext: seq<int>, c: seq<nat>)
    requires Linked(localNext, c) && c != []
    ensures c[|c| - 1] < |localNext| && localNext[c[|c| - 1]] == 0
  {
    if |c| > 1 {
      LastLink(localNext, c[1..]);
    }
  }

  /** The places an element can be found in. */
  ghost predicate Found(s: State, i: nat, o: Owner) {
    if o == Client then i in s.own.place && s.own.place[i] == Client else i in At(s.own, o)
  }

  /** In every run, every constructed element is in exactly one place, and nothing else is anywhere. */
  lemma OnePlaceEach(c: Config, states: seq<State>, events: seq<Event>, k: nat, i: nat)
    requires Run(c, states, events) && k < |states|
    ensures (exists o :: Found(states[k], i, o)) <==> 1 <= i <= states[k].size && i <= c.actual
    ensures forall a, b | Found(states[k], i, a) && Found(states[k], i, b) :: a == b
    ensures forall o | i in At(states[k].own, o) ::
              exists p :: 0 <= p < |At(states[k].own, o)| && At(states[k].own, o)[p] == i
                && forall q | 0 <= q < |At(states[k].own, o)| && q != p :: At(states[k].own, o)[q] != i
  {
    RunInv(c, states, events, k);
    var s := states[k];
    forall o | Found(s, i, o) ensures i in s.own.place && s.own.place[i] == o {
      assert o != Client ==> i in At(s.own, o);
    }
    if i in s.own.place {
      assert Found(s, i, s.own.place[i]);
    }
    forall o | i in At(s.own, o)
      ensures exists p :: 0 <= p < |At(s.own, o)| && At(s.own, o)[p] == i
                && forall q | 0 <= q < |At(s.own, o)| && q != p :: At(s.own, o)[q] != i
    {
      var p :| 0 <= p < |At(s.own, o)| && At(s.own, o)[p] == i;
      assert NoDup(At(s.own, o));
    }
  }

  /** In every run, an allocation hands out an element no client held, and marks it allocated. */
  lemma HandsOutFreeElement(c: Config, states: seq<State>, events: seq<Event>, k: nat, x: Tid, i: nat)
    requires Run(c, states, events) && k < |events| && events[k] == Step(x)
    requires x in states[k].threads && states[k].threads[x].Alloc? && states[k].threads[x].a == Mark(i)
    ensures i in states[k].own.place && states[k].own.place[i] == Fly(x)
    ensures i in states[k + 1].own.place && states[k + 1].own.place[i] == Client
    ensures states[k + 1].threads[x] == Rest(i) && i < |states[k + 1].mem.localNext|
    ensures states[k + 1].mem.localNext[i] == -1
  {
    RunInv(c, states, events, k);
    var s := states[k];
    assert ThreadInv(c, s.mem, s.heads, s.own, x, s.threads[x]);
    assert i in At(s.own, Fly(x));
    InRange(c, s, Fly(x), i);
  }

  // When a lone allocation fails.

  ghost predicate Alone(s: State, x: Tid) {
    forall y | y in s.threads && y != x :: s.threads[y].Rest?
  }

  /** Still looking, with the list of stripe j, and then the global list, found empty. */
  ghost predicate Searching(s: State, x: Tid, j: nat) {
    && x in s.threads && s.threads[x].Alloc? && s.threads[x].j == j
    && match s.threads[x].a
       case PopLoad => true
       case GpopLoad(h) => At(s.own, Loc(j)) == [] && h == LocalAt(s, j)
       case SizeLoad => At(s.own, Loc(j)) == [] && s.heads.listed == []
       case SizeIncr => At(s.own, Loc(j)) == [] && s.heads.listed == []
       case _ => false
  }

  /** Certain to return an element: nobody else can make a compare-and-swap fail. */
  predicate Finding(s: State, x: Tid, j: nat) {
    x in s.threads &&
    match s.threads[x]
    case Rest(i) => i != 0
    case Alloc(j', a) =>
      j' == j &&
      (match a
       case PopNext(h) => h == LocalAt(s, j)
       case PopCas(h, _) => h == LocalAt(s, j)
       case GpopNext(h, gh) => h == LocalAt(s, j) && gh == s.heads.global
       case GpopCas(h, gh, _) => h == LocalAt(s, j) && gh == s.heads.global
       case BulkNext(h, _) => h == LocalAt(s, j)
       case BulkCas(h, _, _) => h == LocalAt(s, j)
       case Mark(_) => true
       case _ => false)
    case _ => false
  }

  function Clients(own: Own): (xs: set<nat>) {
    set i | i in own.place && own.place[i] == Client
  }

  lemma SearchingStep(c: Config, s: State, x: Tid, j: nat)
    requires PoolInv(c, s) && Searching(s, x, j)
    ensures var s' := Apply(c, s, Step(x));
            || (Searching(s', x, j) && Clients(s'.own) == Clients(s.own) && s'.own == s.own)
            || Finding(s', x, j)
            || (s'.threads[x] == Rest(0) && s.size >= c.actual && At(s.own, Loc(j)) == [] && s.heads.listed == [])
  {
    assert ThreadInv(c, s.mem, s.heads, s.own, x, s.threads[x]);
    assert LocalInv(c, s.mem, s.heads, s.own, j);
    NonEmptyFirst(s.mem.localNext, At(s.own, Loc(j)));
  }

  lemma FindingStep(c: Config, s: State, x: Tid, j: nat)
    requires PoolInv(c, s) && Finding(s, x, j) && !s.threads[x].Rest?
    ensures Finding(Apply(c, s, Step(x)), x, j)
  {
    assert ThreadInv(c, s.mem, s.heads, s.own, x, s.threads[x]);
    if s.threads[x].a.Mark? {
      assert s.threads[x].a.i in At(s.own, Fly(x));
      InRange(c, s, Fly(x), s.threads[x].a.i);
    }
  }

  /** Steps a..b of the run are a lone allocation by x on stripe j, started with everybody at rest. */
  ghost predicate LoneAlloc(states: seq<State>, events: seq<Event>, a: nat, b: nat, x: Tid, j: nat) {
    && a < b < |states| && |states| == |events| + 1
    && (forall y | y in states[a].threads :: states[a].threads[y].Rest?)
    && events[a] == StartAlloc(x, j)
    && (forall k | a < k < b :: events[k] == Step(x))
  }

  /** How far a lone allocation has come, starting with ownership own0. */
  ghost predicate OnTheWay(s: State, own0: Own, x: Tid, j: nat) {
    Alone(s, x) && ((Searching(s, x, j) && s.own == own0) || Finding(s, x, j))
  }

  lemma LoneStep(c: Config, s: State, own0: Own, x: Tid, j: nat)
    requires PoolInv(c, s) && Enabled(c, s, Step(x)) && OnTheWay(s, own0, x, j)
    ensures var s' := Apply(c, s, Step(x));
            OnTheWay(s', own0, x, j) || (s'.threads[x] == Rest(0) && LoneFailure(c, s, own0, x, j))
  {
    assert ThreadInv(c, s.mem, s.heads, s.own, x, s.threads[x]);
    if Searching(s, x, j) && s.own == own0 {
      SearchingStep(c, s, x, j);
    } else {
      FindingStep(c, s, x, j);
    }
    assert Alone(Apply(c, s, Step(x)), x);
  }

  lemma LoneStart(c: Config, s: State, x: Tid, j: nat)
    requires Enabled(c, s, StartAlloc(x, j)) && forall y | y in s.threads :: s.threads[y].Rest?
    ensures OnTheWay(Apply(c, s, StartAlloc(x, j)), s.own, x, j)
  {
  }

  lemma {:induction false} LoneProgress(c: Config, states: seq<State>, events: seq<Event>, a: nat, b: nat, x: Tid,
                                        j: nat, k: nat)
    requires Run(c, states, events) && LoneAlloc(states, events, a, b, x, j) && a < k <= b
    ensures x in states[k].threads
    ensures || OnTheWay(states[k], states[a].own, x, j)
            || (states[k].threads[x] == Rest(0) && LoneFailure(c, states[k - 1], states[a].own, x, j))
  {
    var s := states[k - 1];
    if k == a + 1 {
      assert Enabled(c, s, events[a]);
      LoneStart(c, s, x, j);
    } else {
      assert Enabled(c, s, events[k - 1]) && events[k - 1] == Step(x);
      LoneProgress(c, states, events, a, b, x, j, k - 1);
      RunInv(c, states, events, k - 1);
      LoneStep(c, s, states[a].own, x, j);
    }
  }

  /**
    * The state in which a lone allocation fails: nothing on its own stripe, none in the global
    * list, none to construct.
    */
  ghost predicate LoneFailure(c: Config, s: State, own0: Own, x: Tid, j: nat) {
    && PoolInv(c, s) && Alone(s, x) && j < c.lists
    && s.own == own0 && s.size >= c.actual
    && At(s.own, Loc(j)) == [] && s.heads.listed == []
    && x in s.threads && s.threads[x].Alloc? && (s.threads[x].a.SizeLoad? || s.threads[x].a.SizeIncr?)
  }

  // Counting.

  function Upto(n: nat): (xs: set<nat>) {
    if n == 0 then {} else Upto(n - 1) + {n}
  }

  lemma {:induction false} UptoSize(n: nat)
    ensures |Upto(n)| == n && forall i: nat :: i in Upto(n) <==> 1 <= i <= n
  {
    if n > 0 {
      UptoSize(n - 1);
    }
  }

  function Elems(c: seq<nat>): (xs: set<nat>) {
    set i | i in c
  }

  lemma {:induction false} ElemsSize(c: seq<nat>)
    ensures |Elems(c)| <= |c|
  {
    if c != [] {
      ElemsSize(c[1..]);
      assert Elems(c) == {c[0]} + Elems(c[1..]);
    }
  }

  /** Elements in the local lists below n, except stripe j. */
  function InLocals(own: Own, n: nat, j: nat): (xs: set<nat>) {
    if n == 0 then {} else InLocals(own, n - 1, j) + (if n - 1 == j then {} else Elems(At(own, Loc(n - 1))))
  }

  /** Number of stripes below n, except j. */
  function Others(n: nat, j: nat): (m: nat) {
    if n == 0 then 0 else Others(n - 1, j) + (if n - 1 == j then 0 else 1)
  }

  lemma {:induction false} OthersCount(n: nat, j: nat)
    ensures Others(n, j) == if j < n then n - 1 else n
  {
    if n > 0 {
      OthersCount(n - 1, j);
    }
  }

  lemma {:induction false} InLocalsSize(c: Config, own: Own, n: nat, j: nat)
    requires n <= c.lists && forall k: nat | k < c.lists :: |At(own, Loc(k))| <= c.limit
    ensures |InLocals(own, n, j)| <= Others(n, j) * c.limit
  {
    if n > 0 {
      InLocalsSize(c, own, n - 1, j);
      ElemsSize(At(own, Loc(n - 1)));
      if n - 1 != j {
        UnionSize(InLocals(own, n - 1, j), Elems(At(own, Loc(n - 1))));
        assert (Others(n - 1, j) + 1) * c.limit == Others(n - 1, j) * c.limit + c.limit;
      }
    }
  }

  lemma {:induction false} InLocalsHas(own: Own, n: nat, j: nat, k: nat, i: nat)
    requires k < n && k != j && i in At(own, Loc(k))
    ensures i in InLocals(own, n, j)
  {
    if k < n - 1 {
      InLocalsHas(own, n - 1, j, k, i);
    }
  }

  lemma NobodyFlies(c: Config, s: State, own0: Own, x: Tid, j: nat, y: Tid)
    requires LoneFailure(c, s, own0, x, j)
    ensures At(s.own, Fly(y)) == []
  {
    assert y in s.threads ==> ThreadInv(c, s.mem, s.heads, s.own, y, s.threads[y]);
  }

  lemma NothingElsewhere(c: Config, s: State, own0: Own, x: Tid, j: nat, o: Owner)
    requires LoneFailure(c, s, own0, x, j) && At(s.own, o) != []
    ensures o.Loc? && o.j < c.lists && o.j != j
  {
    forall y: Tid ensures At(s.own, Fly(y)) == [] {
      NobodyFlies(c, s, own0, x, j, y);
    }
  }

  lemma FailureCount(c: Config, s: State, own0: Own, x: Tid, j: nat)
    requires LoneFailure(c, s, own0, x, j)
    ensures |Clients(s.own)| >= Capacity(c)
  {
    forall k: nat | k < c.lists ensures |At(s.own, Loc(k))| <= c.limit {
      assert LocalInv(c, s.mem, s.heads, s.own, k);
    }
    InLocalsSize(c, s.own, c.lists, j);
    OthersCount(c.lists, j);
    UptoSize(c.actual);
    var rest := InLocals(s.own, c.lists, j);
    forall i: nat | i in Upto(c.actual) ensures i in Clients(s.own) + rest {
      var o := s.own.place[i];
      if o != Client {
        assert i in At(s.own, o);
        NothingElsewhere(c, s, own0, x, j, o);
        InLocalsHas(s.own, c.lists, j, o.j, i);
      }
    }
    SubsetSize(Upto(c.actual), Clients(s.own) + rest);
    UnionSize(Clients(s.own), rest);
  }

  lemma SubsetSize<T>(a: set<T>, b: set<T>)
    requires a <= b
    ensures |a| <= |b|
  {
    assert b == a + (b - a);
  }

  lemma UnionSize<T>(a: set<T>, b: set<T>)
    ensures |a + b| <= |a| + |b|
  {
    assert a + b == a + (b - a);
    SubsetSize(b - a, b);
  }

  /**
    A lone allocation started with every thread at rest returns 0 only if
    clients hold at least capacity() elements.
   */
  lemma LoneAllocFailsOnlyWhenFull(c: Config, states: seq<State>, events: seq<Event>, a: nat, b: nat, x: Tid, j: nat)
    requires Run(c, states, events) && LoneAlloc(states, events, a, b, x, j)
    requires x in states[b].threads && states[b].threads[x] == Rest(0)
    ensures |Clients(states[a].own)| >= Capacity(c)
  {
    LoneProgress(c, states, events, a, b, x, j, b);
    FailureCount(c, states[b - 1], states[a].own, x, j);
  }
}
