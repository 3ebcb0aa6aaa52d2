/**
  What every interleaving of pool steps keeps: each constructed element is in
  exactly one place, the lists in memory are the ones the heads describe, and
  every local head's size field is the length of its chain.
 */
module MemPoolSafety {
  import opened MemPool
  import opened MemPoolOwnership

  ghost predicate LocalInv(c: Config, mem: Mem, heads: Heads, own: Own, j: nat)
    requires j < |heads.local|
  {
    var l := At(own, Loc(j));
    && heads.local[j].idx == First(l)
    && Size(heads.local[j]) == |l| <= c.limit
    && Linked(mem.localNext, l)
  }

  /** A chain of limit + 1 elements starting with i. */
  ghost predicate FullChain(c: Config, mem: Mem, chain: seq<nat>, i: nat) {
    |chain| == c.limit + 1 && chain[0] == i && Linked(mem.localNext, chain)
  }

  ghost predicate GlobalLinked(globalNext: seq<nat>, g: seq<nat>) {
    g == [] || (0 < g[0] < |globalNext| && globalNext[g[0]] == First(g[1..]) && GlobalLinked(globalNext, g[1..]))
  }

  ghost predicate GlobalInv(c: Config, mem: Mem, heads: Heads, own: Own) {
    && heads.global.idx == First(heads.listed)
    && NoDup(heads.listed)
    && GlobalLinked(mem.globalNext, heads.listed)
    && (forall g | g in heads.listed :: FullChain(c, mem, At(own, Glob(g)), g))
    && (forall g: nat | At(own, Glob(g)) != [] :: g in heads.listed)
  }

  ghost predicate AllocInv(c: Config, mem: Mem, heads: Heads, own: Own, x: Tid, j: nat, a: AllocPc)
    requires j < |heads.local|
  {
    var mine := At(own, Fly(x));
    match a
    case PopNext(h) => mine == [] && h.idx in own.place && Known(h, heads.local[j])
    case PopCas(h, next) =>
      && mine == [] && h.idx in own.place && Known(h, heads.local[j])
      && (h == heads.local[j] ==> next == First(Tail(At(own, Loc(j)))))
    case GpopLoad(h) => mine == [] && h.idx == 0 && Known(h, heads.local[j])
    case GpopNext(h, gh) =>
      mine == [] && h.idx == 0 && Known(h, heads.local[j]) && gh.idx in own.place && Known(gh, heads.global)
    case GpopCas(h, gh, next) =>
      && mine == [] && h.idx == 0 && Known(h, heads.local[j]) && gh.idx in own.place && Known(gh, heads.global)
      && (gh == heads.global ==> next == First(Tail(heads.listed)))
    case BulkNext(h, i) => h.idx == 0 && Known(h, heads.local[j]) && FullChain(c, mem, mine, i)
    case BulkCas(h, i, next) =>
      h.idx == 0 && Known(h, heads.local[j]) && FullChain(c, mem, mine, i) && next == First(Tail(mine))
    case Mark(i) => mine == [i]
    case _ => mine == []
  }

  ghost predicate PushInv(mem: Mem, heads: Heads, j: nat, i: nat, p: PushPc)
    requires j < |heads.local|
  {
    match p
    case PushLoad => true
    case PushStore(h) => Known(h, heads.local[j])
    case PushCas(h) => Known(h, heads.local[j]) && i < |mem.localNext| && mem.localNext[i] == h.idx
  }

  ghost predicate GpushInv(mem: Mem, heads: Heads, i: nat, g: GpushPc) {
    match g
    case GpushLoad => true
    case GpushStore(gh) => Known(gh, heads.global)
    case GpushCas(gh) => Known(gh, heads.global) && i < |mem.globalNext| && mem.globalNext[i] == gh.idx
  }

  ghost predicate ThreadInv(c: Config, mem: Mem, heads: Heads, own: Own, x: Tid, th: Thread) {
    match th
    case Rest(_) => At(own, Fly(x)) == []
    case Alloc(j, a) => j < |heads.local| && AllocInv(c, mem, heads, own, x, j, a)
    case Recycle(j, i, p) => j < |heads.local| && At(own, Fly(x)) == [i] && PushInv(mem, heads, j, i, p)
    case GlobalPush(i, g, then_) =>
      && FullChain(c, mem, At(own, Fly(x)), i) && GpushInv(mem, heads, i, g)
      && (then_.Again? ==> then_.j < |heads.local|)
  }

  /** The elements constructed so far, and the mark of those a client holds. */
  ghost predicate PlaceInv(c: Config, mem: Mem, own: Own, size: nat) {
    && (forall i: nat :: i in own.place <==> 1 <= i <= size && i <= c.actual)
    && (forall i | i in own.place && own.place[i] == Client && i < |mem.localNext| :: mem.localNext[i] == -1)
  }

  ghost predicate PoolInv(c: Config, s: State) {
    && ValidConfig(c) && Shaped(c, s)
    && OwnInv(s.own)
    && PlaceInv(c, s.mem, s.own, s.size)
    && (forall j: nat | j < c.lists :: LocalInv(c, s.mem, s.heads, s.own, j))
    && (forall j: nat | j >= c.lists :: At(s.own, Loc(j)) == [])
    && GlobalInv(c, s.mem, s.heads, s.own)
    && (forall x | x in s.threads :: ThreadInv(c, s.mem, s.heads, s.own, x, s.threads[x]))
    && (forall x: Tid | x !in s.threads :: At(s.own, Fly(x)) == [])
  }

  lemma InitPool(c: Config, s: State)
    requires Init(c, s)
    ensures PoolInv(c, s)
  {
  }

  // What a step of thread x may change for the others.

  ghost predicate HeadsMove(heads: Heads, heads': Heads, own: Own, own': Own) {
    && |heads'.local| == |heads.local|
    && (forall j: nat | j < |heads.local| ::
          || (heads'.local[j] == heads.local[j] && At(own', Loc(j)) == At(own, Loc(j)))
          || Tag(heads.local[j]) < Tag(heads'.local[j]))
    && ((heads'.global == heads.global && heads'.listed == heads.listed) || Tag(heads.global) < Tag(heads'.global))
  }

  ghost predicate OwnMoves(own: Own, own': Own, x: Tid) {
    && (forall y | y != x :: At(own', Fly(y)) == At(own, Fly(y)))
    && own.place.Keys <= own'.place.Keys
  }

  /** Only links of elements that x flies are written. */
  ghost predicate MemMoves(mem: Mem, mem': Mem, own: Own, x: Tid) {
    && |mem'.localNext| == |mem.localNext| && |mem'.globalNext| == |mem.globalNext|
    && (forall i: nat | i < |mem.localNext| && i !in At(own, Fly(x)) :: mem'.localNext[i] == mem.localNext[i])
    && (forall i: nat | i < |mem.globalNext| && i !in At(own, Fly(x)) :: mem'.globalNext[i] == mem.globalNext[i])
  }

  lemma {:induction false} LinkedElsewhere(ln: seq<int>, ln': seq<int>, c: seq<nat>, w: seq<nat>)
    requires Linked(ln, c) && |ln| == |ln'|
    requires forall i: nat | i < |ln| && i !in w :: ln'[i] == ln[i]
    requires forall i | i in c :: i !in w
    ensures Linked(ln', c)
  {
    if c != [] {
      assert c[0] in c;
      LinkedElsewhere(ln, ln', c[1..], w);
    }
  }

  lemma ChainsApart(own: Own, a: Owner, b: Owner)
    requires OwnInv(own) && a != b
    ensures forall i | i in At(own, a) :: i !in At(own, b)
  {
    forall i | i in At(own, a) ensures i !in At(own, b) {
      if i in At(own, b) {
        InOneChain(own, a, b, i);
      }
    }
  }

  /** A thread other than the stepping one keeps its invariant. */
  lemma BystanderKept(c: Config, mem: Mem, mem': Mem, heads: Heads, heads': Heads, own: Own, own': Own, x: Tid,
                      y: Tid, th: Thread)
    requires OwnInv(own) && y != x && ThreadInv(c, mem, heads, own, y, th)
    requires HeadsMove(heads, heads', own, own') && OwnMoves(own, own', x) && MemMoves(mem, mem', own, x)
    ensures ThreadInv(c, mem', heads', own', y, th)
  {
    var mine := At(own, Fly(y));
    ChainsApart(own, Fly(y), Fly(x));
    if Linked(mem.localNext, mine) {
      LinkedElsewhere(mem.localNext, mem'.localNext, mine, At(own, Fly(x)));
    }
    match th
    case Recycle(j, i, p) => assert i in mine;
    case GlobalPush(i, g, then_) => assert i in mine;
    case _ =>
  }

  /** Reassemble the invariant after a step of x from its parts. */
  lemma StepInv(c: Config, s: State, s': State, x: Tid)
    requires PoolInv(c, s) && x in s.threads && Shaped(c, s')
    requires s'.threads.Keys == s.threads.Keys && forall y | y in s.threads && y != x :: s'.threads[y] == s.threads[y]
    requires HeadsMove(s.heads, s'.heads, s.own, s'.own) && OwnMoves(s.own, s'.own, x)
    requires MemMoves(s.mem, s'.mem, s.own, x)
    requires OwnInv(s'.own) && PlaceInv(c, s'.mem, s'.own, s'.size)
    requires forall j: nat | j < c.lists :: LocalInv(c, s'.mem, s'.heads, s'.own, j)
    requires forall j: nat | j >= c.lists :: At(s'.own, Loc(j)) == []
    requires GlobalInv(c, s'.mem, s'.heads, s'.own)
    requires ThreadInv(c, s'.mem, s'.heads, s'.own, x, s'.threads[x])
    ensures PoolInv(c, s')
  {
    forall y | y in s'.threads ensures ThreadInv(c, s'.mem, s'.heads, s'.own, y, s'.threads[y]) {
      if y != x {
        BystanderKept(c, s.mem, s'.mem, s.heads, s'.heads, s.own, s'.own, x, y, s.threads[y]);
      }
    }
  }

  /** A step that only moves x's program counter. */
  lemma PcStep(c: Config, s: State, x: Tid, th: Thread)
    requires PoolInv(c, s) && x in s.threads && ThreadInv(c, s.mem, s.heads, s.own, x, th)
    ensures PoolInv(c, SetThread(s, x, th))
  {
    StepInv(c, s, SetThread(s, x, th), x);
  }

  lemma NonEmptyFirst(ln: seq<int>, l: seq<nat>)
    requires Linked(ln, l)
    ensures First(l) == 0 <==> l == []
  {
  }

  // Local list changes.

  /** The invariant of the other lists when list j and thread x exchange elements. */
  lemma LocalsKept(c: Config, s: State, own': Own, heads': Heads, j: nat, j': nat)
    requires PoolInv(c, s) && j' < c.lists && j' != j && |heads'.local| == |s.heads.local|
    requires heads'.local[j'] == s.heads.local[j'] && At(own', Loc(j')) == At(s.own, Loc(j'))
    ensures LocalInv(c, s.mem, heads', own', j')
  {
    assert LocalInv(c, s.mem, s.heads, s.own, j');
  }

  lemma GlobalKept(c: Config, s: State, own': Own, heads': Heads)
    requires PoolInv(c, s) && heads'.global == s.heads.global && heads'.listed == s.heads.listed
    requires forall g: nat :: At(own', Glob(g)) == At(s.own, Glob(g))
    ensures GlobalInv(c, s.mem, heads', own')
  {
  }

  /** Exchanging elements between list j and thread x moves nothing else. */
  lemma ExchangeMoves(heads: Heads, heads': Heads, own: Own, own': Own, x: Tid, j: nat)
    requires |heads'.local| == |heads.local| && j < |heads.local| && heads'.global == heads.global
    requires Tag(heads.local[j]) < Tag(heads'.local[j])
    requires forall k: nat | k < |heads.local| && k != j :: heads'.local[k] == heads.local[k]
    requires forall o | o != Loc(j) && o != Fly(x) :: At(own', o) == At(own, o)
    requires heads'.listed == heads.listed && own'.place.Keys == own.place.Keys
    ensures HeadsMove(heads, heads', own, own') && OwnMoves(own, own', x)
  {
  }

  lemma RehomePlaces(c: Config, mem: Mem, own: Own, size: nat, a: Owner, sa: seq<nat>, b: Owner, sb: seq<nat>)
    requires PlaceInv(c, mem, own, size) && a != Client && b != Client
    ensures PlaceInv(c, mem, Rehome(own, a, sa, b, sb), size)
    ensures Rehome(own, a, sa, b, sb).place.Keys == own.place.Keys
  {
  }

  /** List j and thread x redistribute their elements in one successful compare-and-swap. */
  lemma LocalExchange(c: Config, s: State, s': State, x: Tid, j: nat)
    requires PoolInv(c, s) && x in s.threads && j < c.lists && Shaped(c, s')
    requires s'.threads.Keys == s.threads.Keys && forall y | y in s.threads && y != x :: s'.threads[y] == s.threads[y]
    requires s'.mem == s.mem && s'.size == s.size
    requires HeadsMove(s.heads, s'.heads, s.own, s'.own) && OwnMoves(s.own, s'.own, x)
    requires s'.heads.global == s.heads.global && s'.heads.listed == s.heads.listed
    requires forall k: nat | k < c.lists && k != j :: s'.heads.local[k] == s.heads.local[k]
    requires OwnInv(s'.own) && PlaceInv(c, s.mem, s'.own, s.size)
    requires forall o | o != Loc(j) && o != Fly(x) :: At(s'.own, o) == At(s.own, o)
    requires LocalInv(c, s.mem, s'.heads, s'.own, j)
    requires ThreadInv(c, s'.mem, s'.heads, s'.own, x, s'.threads[x])
    ensures PoolInv(c, s')
  {
    GlobalKept(c, s, s'.own, s'.heads);
    forall k: nat | k < c.lists ensures LocalInv(c, s'.mem, s'.heads, s'.own, k) {
      if k != j {
        LocalsKept(c, s, s'.own, s'.heads, j, k);
      }
    }
    StepInv(c, s, s', x);
  }

  lemma RehomeParts(c: Config, mem: Mem, heads: Heads, own: Own, size: nat, x: Tid, j: nat, p: Ptr,
                    la: seq<nat>, fa: seq<nat>)
    requires OwnInv(own) && PlaceInv(c, mem, own, size) && j < |heads.local|
    requires NoDup(la) && NoDup(fa) && forall i | i in la :: i !in fa
    requires forall i: nat :: i in la || i in fa <==> i in At(own, Loc(j)) || i in At(own, Fly(x))
    requires Tag(heads.local[j]) < Tag(p)
    requires p.idx == First(la) && Size(p) == |la| <= c.limit && Linked(mem.localNext, la)
    ensures var own', heads' := Rehome(own, Loc(j), la, Fly(x), fa), heads.(local := heads.local[j := p]);
            && OwnInv(own') && PlaceInv(c, mem, own', size)
            && HeadsMove(heads, heads', own, own') && OwnMoves(own, own', x)
            && LocalInv(c, mem, heads', own', j)
            && forall o | o != Loc(j) && o != Fly(x) :: At(own', o) == At(own, o)
  {
    var own', heads' := Rehome(own, Loc(j), la, Fly(x), fa), heads.(local := heads.local[j := p]);
    RehomeInv(own, Loc(j), la, Fly(x), fa);
    RehomePlaces(c, mem, own, size, Loc(j), la, Fly(x), fa);
    ExchangeMoves(heads, heads', own, own', x, j);
  }

  lemma LocalRehome(c: Config, s: State, x: Tid, j: nat, p: Ptr, la: seq<nat>, fa: seq<nat>, th: Thread, s': State)
    requires PoolInv(c, s) && x in s.threads && j < c.lists
    requires NoDup(la) && NoDup(fa) && forall i | i in la :: i !in fa
    requires forall i: nat :: i in la || i in fa <==> i in At(s.own, Loc(j)) || i in At(s.own, Fly(x))
    requires Tag(s.heads.local[j]) < Tag(p)
    requires p.idx == First(la) && Size(p) == |la| <= c.limit && Linked(s.mem.localNext, la)
    requires s' == SetThread(SetLocal(s, j, p), x, th).(own := Rehome(s.own, Loc(j), la, Fly(x), fa))
    requires ThreadInv(c, s'.mem, s'.heads, s'.own, x, th)
    ensures PoolInv(c, s')
  {
    RehomeParts(c, s.mem, s.heads, s.own, s.size, x, j, p, la, fa);
    assert s'.heads == s.heads.(local := s.heads.local[j := p]);
    LocalExchange(c, s, s', x, j);
  }

  lemma TakeLocalFacts(c: Config, s: State, x: Tid, j: nat, h: Ptr, next: nat)
    requires PoolInv(c, s) && x in s.threads && s.threads[x] == Alloc(j, PopCas(h, next)) && LocalAt(s, j) == h
    ensures j < c.lists && j < |s.heads.local| && At(s.own, Fly(x)) == []
    ensures var l := At(s.own, Loc(j));
            && l == [h.idx] + Tail(l) && NoDup(Tail(l)) && h.idx !in Tail(l) && Linked(s.mem.localNext, Tail(l))
            && next == First(Tail(l)) && Size(h) == |l| <= c.limit
  {
    assert ThreadInv(c, s.mem, s.heads, s.own, x, s.threads[x]);
    assert LocalInv(c, s.mem, s.heads, s.own, j);
    var l := At(s.own, Loc(j));
    assert l != [] && l == [h.idx] + Tail(l);
    assert NoDup(l);
  }

  lemma TakeLocalInv(c: Config, s: State, x: Tid, j: nat, h: Ptr, next: nat)
    requires PoolInv(c, s) && x in s.threads && s.threads[x] == Alloc(j, PopCas(h, next)) && LocalAt(s, j) == h
    ensures PoolInv(c, TakeLocal(s, x, j, h, next))
  {
    hide PoolInv, OwnInv, Linked, GlobalInv;
    TakeLocalFacts(c, s, x, j, h, next);
    var l := At(s.own, Loc(j));
    TagWithIdx(h, next);
    TagDecr(WithIdx(h, next));
    LocalRehome(c, s, x, j, WithSizeDecr(WithIdx(h, next)), Tail(l), [h.idx], Alloc(j, Mark(h.idx)),
                  TakeLocal(s, x, j, h, next));
  }

  lemma PutBulkInv(c: Config, s: State, x: Tid, j: nat, h: Ptr, i: nat, next: nat)
    requires PoolInv(c, s) && x in s.threads && s.threads[x] == Alloc(j, BulkCas(h, i, next)) && LocalAt(s, j) == h
    ensures PoolInv(c, PutBulk(c, s, x, j, h, i, next))
  {
    assert ThreadInv(c, s.mem, s.heads, s.own, x, s.threads[x]);
    assert LocalInv(c, s.mem, s.heads, s.own, j);
    NonEmptyFirst(s.mem.localNext, At(s.own, Loc(j)));
    var mine := At(s.own, Fly(x));
    assert mine == [i] + Tail(mine);
    assert NoDup(mine);
    TagWithIdx(h, next);
    TagWithSize(WithIdx(h, next), c.limit);
    LocalRehome(c, s, x, j, WithSize(WithIdx(h, next), c.limit), Tail(mine), [i], Alloc(j, Mark(i)),
                  PutBulk(c, s, x, j, h, i, next));
  }

  lemma PutLocalInv(c: Config, s: State, x: Tid, j: nat, i: nat, h: Ptr)
    requires PoolInv(c, s) && x in s.threads && s.threads[x] == Recycle(j, i, PushCas(h)) && LocalAt(s, j) == h
    ensures PoolInv(c, PutLocal(c, s, x, j, i, h))
  {
    assert ThreadInv(c, s.mem, s.heads, s.own, x, s.threads[x]);
    assert LocalInv(c, s.mem, s.heads, s.own, j);
    var l := At(s.own, Loc(j));
    assert NoDup(l);
    ChainsApart(s.own, Fly(x), Loc(j));
    assert i in At(s.own, Fly(x));
    LinkedPush(s.mem.localNext, i, l);
    TagWithIdx(h, i);
    TagWithIdx(h, 0);
    if Size(h) == c.limit {
      TagWithSize(WithIdx(h, 0), 0);
      LocalRehome(c, s, x, j, WithEmpty(h), [], [i] + l, GlobalPush(i, GpushLoad, Done), PutLocal(c, s, x, j, i, h));
    } else {
      TagIncr(WithIdx(h, i));
      LocalRehome(c, s, x, j, WithSizeIncr(WithIdx(h, i)), [i] + l, [], Rest(0), PutLocal(c, s, x, j, i, h));
    }
  }

  // Global list changes.

  /** The global head moves; a chain and thread x trade elements; all else stays. */
  lemma GlobalExchange(c: Config, s: State, s': State, x: Tid, g: nat)
    requires PoolInv(c, s) && x in s.threads && Shaped(c, s')
    requires s'.threads.Keys == s.threads.Keys && forall y | y in s.threads && y != x :: s'.threads[y] == s.threads[y]
    requires s'.mem == s.mem && s'.heads.local == s.heads.local && s'.size == s.size
    requires Tag(s.heads.global) < Tag(s'.heads.global)
    requires OwnInv(s'.own) && PlaceInv(c, s.mem, s'.own, s.size) && s'.own.place.Keys == s.own.place.Keys
    requires forall o | o != Glob(g) && o != Fly(x) :: At(s'.own, o) == At(s.own, o)
    requires GlobalInv(c, s.mem, s'.heads, s'.own)
    requires ThreadInv(c, s'.mem, s'.heads, s'.own, x, s'.threads[x])
    ensures PoolInv(c, s')
  {
    forall k: nat | k < c.lists ensures LocalInv(c, s'.mem, s'.heads, s'.own, k) {
      LocalsKept(c, s, s'.own, s'.heads, c.lists, k);
    }
    StepInv(c, s, s', x);
  }

  lemma GlobalPopped(c: Config, mem: Mem, heads: Heads, own: Own, heads': Heads, own': Own)
    requires GlobalInv(c, mem, heads, own) && heads.listed != []
    requires heads'.listed == heads.listed[1..] && heads'.global.idx == First(heads'.listed)
    requires At(own', Glob(heads.listed[0])) == []
    requires forall g: nat | g != heads.listed[0] :: At(own', Glob(g)) == At(own, Glob(g))
    ensures GlobalInv(c, mem, heads', own')
  {
    forall g | g in heads'.listed ensures FullChain(c, mem, At(own', Glob(g)), g) {
      assert g in heads.listed && g != heads.listed[0];
    }
    forall g: nat | At(own', Glob(g)) != [] ensures g in heads'.listed {
      assert g in heads.listed;
    }
  }

  lemma GlobalPushed(c: Config, mem: Mem, heads: Heads, own: Own, heads': Heads, own': Own, i: nat)
    requires GlobalInv(c, mem, heads, own) && i !in heads.listed
    requires heads'.listed == [i] + heads.listed && heads'.global.idx == i
    requires 0 < i < |mem.globalNext| && mem.globalNext[i] == First(heads.listed)
    requires FullChain(c, mem, At(own', Glob(i)), i)
    requires forall g: nat | g != i :: At(own', Glob(g)) == At(own, Glob(g))
    ensures GlobalInv(c, mem, heads', own')
  {
    assert heads'.listed[1..] == heads.listed;
  }

  lemma TakeGlobalParts(c: Config, mem: Mem, heads: Heads, own: Own, size: nat, x: Tid, heads': Heads)
    requires OwnInv(own) && PlaceInv(c, mem, own, size) && GlobalInv(c, mem, heads, own)
    requires At(own, Fly(x)) == [] && heads.listed != []
    requires heads'.listed == heads.listed[1..] && heads'.global.idx == First(heads'.listed)
    ensures var g := heads.listed[0];
            var own' := Rehome(own, Glob(g), [], Fly(x), At(own, Glob(g)));
            && OwnInv(own') && PlaceInv(c, mem, own', size) && own'.place.Keys == own.place.Keys
            && GlobalInv(c, mem, heads', own')
            && FullChain(c, mem, At(own', Fly(x)), g)
            && forall o | o != Glob(g) && o != Fly(x) :: At(own', o) == At(own, o)
  {
    var g := heads.listed[0];
    var chain := At(own, Glob(g));
    assert g in heads.listed;
    assert FullChain(c, mem, chain, g) && NoDup(chain);
    RehomeInv(own, Glob(g), [], Fly(x), chain);
    RehomePlaces(c, mem, own, size, Glob(g), [], Fly(x), chain);
    GlobalPopped(c, mem, heads, own, heads', Rehome(own, Glob(g), [], Fly(x), chain));
  }

  lemma TakeGlobalInv(c: Config, s: State, x: Tid, j: nat, h: Ptr, gh: Ptr, next: nat)
    requires PoolInv(c, s) && x in s.threads && s.threads[x] == Alloc(j, GpopCas(h, gh, next)) && s.heads.global == gh
    ensures PoolInv(c, TakeGlobal(s, x, j, h, gh, next))
  {
    assert ThreadInv(c, s.mem, s.heads, s.own, x, s.threads[x]);
    var s' := TakeGlobal(s, x, j, h, gh, next);
    assert s.heads.listed != [] && s.heads.listed[0] == gh.idx;
    TakeGlobalParts(c, s.mem, s.heads, s.own, s.size, x, s'.heads);
    TagWithIdx(gh, next);
    GlobalExchange(c, s, s', x, gh.idx);
  }

  lemma PutGlobalParts(c: Config, mem: Mem, heads: Heads, own: Own, size: nat, x: Tid, i: nat, heads': Heads)
    requires OwnInv(own) && PlaceInv(c, mem, own, size) && GlobalInv(c, mem, heads, own)
    requires FullChain(c, mem, At(own, Fly(x)), i) && i !in heads.listed && At(own, Glob(i)) == []
    requires 0 < i < |mem.globalNext| && mem.globalNext[i] == First(heads.listed)
    requires heads'.listed == [i] + heads.listed && heads'.global.idx == i
    ensures var own' := Rehome(own, Fly(x), [], Glob(i), At(own, Fly(x)));
            && OwnInv(own') && PlaceInv(c, mem, own', size) && own'.place.Keys == own.place.Keys
            && GlobalInv(c, mem, heads', own') && At(own', Fly(x)) == []
            && forall o | o != Glob(i) && o != Fly(x) :: At(own', o) == At(own, o)
  {
    var mine := At(own, Fly(x));
    assert NoDup(mine);
    RehomeInv(own, Fly(x), [], Glob(i), mine);
    RehomePlaces(c, mem, own, size, Fly(x), [], Glob(i), mine);
    GlobalPushed(c, mem, heads, own, heads', Rehome(own, Fly(x), [], Glob(i), mine), i);
  }

  lemma PutGlobalInv(c: Config, s: State, x: Tid, i: nat, gh: Ptr, then_: Then)
    requires PoolInv(c, s) && x in s.threads && s.threads[x] == GlobalPush(i, GpushCas(gh), then_)
    requires s.heads.global == gh
    ensures PoolInv(c, GlobalPushStep(s, x, i, GpushCas(gh), then_))
  {
    assert ThreadInv(c, s.mem, s.heads, s.own, x, s.threads[x]);
    var s' := GlobalPushStep(s, x, i, GpushCas(gh), then_);
    assert i in At(s.own, Fly(x));
    InRange(c, s, Fly(x), i);
    NotListed(c, s, x, i);
    hide PoolInv;
    PutGlobalParts(c, s.mem, s.heads, s.own, s.size, x, i, s'.heads);
    assert s'.own == Rehome(s.own, Fly(x), [], Glob(i), At(s.own, Fly(x)));
    TagWithIdx(gh, i);
    GlobalExchange(c, s, s', x, i);
  }

  /** A chain in flight is not also in the global list. */
  lemma NotListed(c: Config, s: State, x: Tid, i: nat)
    requires PoolInv(c, s) && i in At(s.own, Fly(x))
    ensures i !in s.heads.listed && At(s.own, Glob(i)) == []
  {
    if i in s.heads.listed {
      assert FullChain(c, s.mem, At(s.own, Glob(i)), i);
      InOneChain(s.own, Glob(i), Fly(x), i);
    }
  }

  // Link writes by the thread that flies the element.

  lemma {:induction false} GlobalLinkedElsewhere(gn: seq<nat>, gn': seq<nat>, g: seq<nat>, w: seq<nat>)
    requires GlobalLinked(gn, g) && |gn| == |gn'|
    requires forall i: nat | i < |gn| && i !in w :: gn'[i] == gn[i]
    requires forall i | i in g :: i !in w
    ensures GlobalLinked(gn', g)
  {
    if g != [] {
      assert g[0] in g;
      GlobalLinkedElsewhere(gn, gn', g[1..], w);
    }
  }

  /** Lists and global chains do not notice links written in a flying chain. */
  lemma ListsKept(c: Config, s: State, mem': Mem, own': Own, x: Tid)
    requires PoolInv(c, s) && MemMoves(s.mem, mem', s.own, x)
    requires forall o | o != Fly(x) :: At(own', o) == At(s.own, o)
    ensures forall j: nat | j < c.lists :: LocalInv(c, mem', s.heads, own', j)
    ensures GlobalInv(c, mem', s.heads, own')
  {
    var w := At(s.own, Fly(x));
    forall j: nat | j < c.lists ensures LocalInv(c, mem', s.heads, own', j) {
      assert LocalInv(c, s.mem, s.heads, s.own, j);
      ChainsApart(s.own, Loc(j), Fly(x));
      LinkedElsewhere(s.mem.localNext, mem'.localNext, At(s.own, Loc(j)), w);
    }
    forall g | g in s.heads.listed ensures FullChain(c, mem', At(own', Glob(g)), g) {
      assert FullChain(c, s.mem, At(s.own, Glob(g)), g);
      ChainsApart(s.own, Glob(g), Fly(x));
      LinkedElsewhere(s.mem.localNext, mem'.localNext, At(s.own, Glob(g)), w);
    }
    forall i | i in s.heads.listed ensures i !in w {
      if i in w {
        NotListed(c, s, x, i);
      }
    }
    GlobalLinkedElsewhere(s.mem.globalNext, mem'.globalNext, s.heads.listed, w);
  }

  lemma InRange(c: Config, s: State, o: Owner, i: nat)
    requires PoolInv(c, s) && i in At(s.own, o)
    ensures 0 < i <= c.actual && i in s.own.place && s.own.place[i] == o
  {
    assert i in s.own.place;
  }

  lemma PushStoreInv(c: Config, s: State, x: Tid, j: nat, i: nat, h: Ptr)
    requires PoolInv(c, s) && x in s.threads && s.threads[x] == Recycle(j, i, PushStore(h))
    ensures PoolInv(c, RecycleStep(c, s, x, j, i, PushStore(h)))
  {
    assert ThreadInv(c, s.mem, s.heads, s.own, x, s.threads[x]);
    var s' := RecycleStep(c, s, x, j, i, PushStore(h));
    assert i in At(s.own, Fly(x));
    InRange(c, s, Fly(x), i);
    ListsKept(c, s, s'.mem, s'.own, x);
    StepInv(c, s, s', x);
  }

  lemma GpushStoreInv(c: Config, s: State, x: Tid, i: nat, gh: Ptr, then_: Then)
    requires PoolInv(c, s) && x in s.threads && s.threads[x] == GlobalPush(i, GpushStore(gh), then_)
    ensures PoolInv(c, GlobalPushStep(s, x, i, GpushStore(gh), then_))
  {
    assert ThreadInv(c, s.mem, s.heads, s.own, x, s.threads[x]);
    var s' := GlobalPushStep(s, x, i, GpushStore(gh), then_);
    assert i in At(s.own, Fly(x));
    InRange(c, s, Fly(x), i);
    ListsKept(c, s, s'.mem, s'.own, x);
    StepInv(c, s, s', x);
  }

  lemma MarkPlaces(c: Config, mem: Mem, own: Own, size: nat, x: Tid, i: nat)
    requires PlaceInv(c, mem, own, size) && i in own.place && i < |mem.localNext|
    ensures var own' := own.(chains := own.chains[Fly(x) := []], place := own.place[i := Client]);
            PlaceInv(c, mem.(localNext := mem.localNext[i := -1]), own', size)
  {
  }

  lemma MarkInv(c: Config, s: State, x: Tid, j: nat, i: nat)
    requires PoolInv(c, s) && x in s.threads && s.threads[x] == Alloc(j, Mark(i))
    ensures PoolInv(c, AllocStep(c, s, x, j, Mark(i)))
  {
    assert ThreadInv(c, s.mem, s.heads, s.own, x, s.threads[x]);
    var s' := AllocStep(c, s, x, j, Mark(i));
    assert i in At(s.own, Fly(x));
    InRange(c, s, Fly(x), i);
    HandOutInv(s.own, x, i);
    MarkPlaces(c, s.mem, s.own, s.size, x, i);
    assert MemMoves(s.mem, s'.mem, s.own, x);
    ListsKept(c, s, s'.mem, s'.own, x);
    assert HeadsMove(s.heads, s'.heads, s.own, s'.own) && OwnMoves(s.own, s'.own, x);
    StepInv(c, s, s', x);
  }

  /** Thread x takes up element i, new or from a client. */
  lemma TakeUpStep(c: Config, s: State, s': State, x: Tid, i: nat)
    requires PoolInv(c, s) && x in s.threads && At(s.own, Fly(x)) == []
    requires i in s.own.place ==> s.own.place[i] == Client
    requires s'.own == s.own.(chains := s.own.chains[Fly(x) := [i]], place := s.own.place[i := Fly(x)])
    requires x in s'.threads && s'.mem == s.mem && s'.heads == s.heads && s'.threads == s.threads[x := s'.threads[x]]
    requires PlaceInv(c, s'.mem, s'.own, s'.size)
    requires ThreadInv(c, s'.mem, s'.heads, s'.own, x, s'.threads[x])
    ensures PoolInv(c, s')
  {
    TakeUpInv(s.own, x, i);
    ListsKept(c, s, s'.mem, s'.own, x);
    StepInv(c, s, s', x);
  }

  lemma ConstructInv(c: Config, s: State, x: Tid, j: nat)
    requires PoolInv(c, s) && x in s.threads && s.threads[x] == Alloc(j, SizeIncr) && s.size + 1 <= c.actual
    ensures PoolInv(c, Construct(s, x, j))
  {
    assert ThreadInv(c, s.mem, s.heads, s.own, x, s.threads[x]);
    TakeUpStep(c, s, Construct(s, x, j), x, s.size + 1);
  }

  lemma StartRecycleInv(c: Config, s: State, x: Tid, j: nat, i: nat)
    requires PoolInv(c, s) && Enabled(c, s, StartRecycle(x, j, i))
    ensures PoolInv(c, Apply(c, s, StartRecycle(x, j, i)))
  {
    assert ThreadInv(c, s.mem, s.heads, s.own, x, s.threads[x]);
    TakeUpStep(c, s, Apply(c, s, StartRecycle(x, j, i)), x, i);
  }

  // Program counter steps and failed attempts.

  lemma PopSteps(c: Config, s: State, x: Tid, j: nat, a: AllocPc)
    requires PoolInv(c, s) && x in s.threads && s.threads[x] == Alloc(j, a) && (a.PopLoad? || a.PopNext? || a.PopCas?)
    ensures PoolInv(c, AllocStep(c, s, x, j, a))
  {
    assert ThreadInv(c, s.mem, s.heads, s.own, x, s.threads[x]);
    assert LocalInv(c, s.mem, s.heads, s.own, j);
    match a
    case PopLoad =>
      var l := At(s.own, Loc(j));
      assert l != [] ==> l[0] in l;
      PcStep(c, s, x, Alloc(j, if LocalAt(s, j).idx != 0 then PopNext(LocalAt(s, j)) else GpopLoad(LocalAt(s, j))));
    case PopNext(h) => PcStep(c, s, x, Alloc(j, PopCas(h, AsIndex(LocalNext(s, h.idx)))));
    case PopCas(h, next) =>
      if LocalAt(s, j) == h {
        TakeLocalInv(c, s, x, j, h, next);
      } else {
        PcStep(c, s, x, Alloc(j, PopLoad));
      }
  }

  lemma GpopSteps(c: Config, s: State, x: Tid, j: nat, a: AllocPc)
    requires PoolInv(c, s) && x in s.threads && s.threads[x] == Alloc(j, a)
      && (a.GpopLoad? || a.GpopNext? || a.GpopCas?)
    ensures PoolInv(c, AllocStep(c, s, x, j, a))
  {
    assert ThreadInv(c, s.mem, s.heads, s.own, x, s.threads[x]);
    match a
    case GpopLoad(h) =>
      if s.heads.global.idx != 0 {
        var g := s.heads.global.idx;
        assert g in s.heads.listed;
        assert FullChain(c, s.mem, At(s.own, Glob(g)), g);
        assert g in At(s.own, Glob(g));
      }
      PcStep(c, s, x, Alloc(j, if s.heads.global.idx == 0 then SizeLoad else GpopNext(h, s.heads.global)));
    case GpopNext(h, gh) => PcStep(c, s, x, Alloc(j, GpopCas(h, gh, GlobalNext(s, gh.idx))));
    case GpopCas(h, gh, next) =>
      if s.heads.global == gh {
        TakeGlobalInv(c, s, x, j, h, gh, next);
      } else {
        PcStep(c, s, x, Alloc(j, GpopLoad(h)));
      }
  }

  lemma SizeSteps(c: Config, s: State, x: Tid, j: nat, a: AllocPc)
    requires PoolInv(c, s) && x in s.threads && s.threads[x] == Alloc(j, a) && (a.SizeLoad? || a.SizeIncr?)
    ensures PoolInv(c, AllocStep(c, s, x, j, a))
  {
    assert ThreadInv(c, s.mem, s.heads, s.own, x, s.threads[x]);
    if a.SizeLoad? {
      PcStep(c, s, x, if s.size >= c.actual then Rest(0) else Alloc(j, SizeIncr));
    } else if s.size + 1 > c.actual {
      PcStep(c, s, x, Rest(0));
      assert PlaceInv(c, s.mem, s.own, s.size + 1);
    } else {
      ConstructInv(c, s, x, j);
    }
  }

  lemma BulkSteps(c: Config, s: State, x: Tid, j: nat, a: AllocPc)
    requires PoolInv(c, s) && x in s.threads && s.threads[x] == Alloc(j, a) && (a.BulkNext? || a.BulkCas? || a.Mark?)
    ensures PoolInv(c, AllocStep(c, s, x, j, a))
  {
    assert ThreadInv(c, s.mem, s.heads, s.own, x, s.threads[x]);
    match a
    case BulkNext(h, i) => PcStep(c, s, x, Alloc(j, BulkCas(h, i, AsIndex(LocalNext(s, i)))));
    case BulkCas(h, i, next) =>
      if LocalAt(s, j) == h {
        PutBulkInv(c, s, x, j, h, i, next);
      } else {
        PcStep(c, s, x, GlobalPush(i, GpushLoad, Again(j)));
      }
    case Mark(i) => MarkInv(c, s, x, j, i);
  }

  lemma RecycleSteps(c: Config, s: State, x: Tid, j: nat, i: nat, p: PushPc)
    requires PoolInv(c, s) && x in s.threads && s.threads[x] == Recycle(j, i, p)
    ensures PoolInv(c, RecycleStep(c, s, x, j, i, p))
  {
    assert ThreadInv(c, s.mem, s.heads, s.own, x, s.threads[x]);
    match p
    case PushLoad => PcStep(c, s, x, Recycle(j, i, PushStore(LocalAt(s, j))));
    case PushStore(h) => PushStoreInv(c, s, x, j, i, h);
    case PushCas(h) =>
      if LocalAt(s, j) == h {
        PutLocalInv(c, s, x, j, i, h);
      } else {
        PcStep(c, s, x, Recycle(j, i, PushStore(LocalAt(s, j))));
      }
  }

  lemma GlobalPushSteps(c: Config, s: State, x: Tid, i: nat, g: GpushPc, then_: Then)
    requires PoolInv(c, s) && x in s.threads && s.threads[x] == GlobalPush(i, g, then_)
    ensures PoolInv(c, GlobalPushStep(s, x, i, g, then_))
  {
    assert ThreadInv(c, s.mem, s.heads, s.own, x, s.threads[x]);
    match g
    case GpushLoad => PcStep(c, s, x, GlobalPush(i, GpushStore(s.heads.global), then_));
    case GpushStore(gh) => GpushStoreInv(c, s, x, i, gh, then_);
    case GpushCas(gh) =>
      if s.heads.global == gh {
        PutGlobalInv(c, s, x, i, gh, then_);
      } else {
        PcStep(c, s, x, GlobalPush(i, GpushLoad, then_));
      }
  }

  lemma AllocSteps(c: Config, s: State, x: Tid, j: nat, a: AllocPc)
    requires PoolInv(c, s) && x in s.threads && s.threads[x] == Alloc(j, a)
    ensures PoolInv(c, AllocStep(c, s, x, j, a))
  {
    if a.PopLoad? || a.PopNext? || a.PopCas? {
      PopSteps(c, s, x, j, a);
    } else if a.GpopLoad? || a.GpopNext? || a.GpopCas? {
      GpopSteps(c, s, x, j, a);
    } else if a.SizeLoad? || a.SizeIncr? {
      SizeSteps(c, s, x, j, a);
    } else {
      BulkSteps(c, s, x, j, a);
    }
  }

  lemma SpawnInv(c: Config, s: State, x: Tid)
    requires PoolInv(c, s) && x !in s.threads
    ensures PoolInv(c, SetThread(s, x, Rest(0)))
  {
  }

  lemma EventInv(c: Config, s: State, e: Event)
    requires PoolInv(c, s) && Enabled(c, s, e)
    ensures PoolInv(c, Apply(c, s, e))
  {
    match e
    case Spawn(x) => SpawnInv(c, s, x);
    case StartAlloc(x, j) =>
      assert ThreadInv(c, s.mem, s.heads, s.own, x, s.threads[x]);
      PcStep(c, s, x, Alloc(j, PopLoad));
    case StartRecycle(x, j, i) => StartRecycleInv(c, s, x, j, i);
    case Step(x) =>
      match s.threads[x]
      case Alloc(j, a) => AllocSteps(c, s, x, j, a);
      case Recycle(j, i, p) => RecycleSteps(c, s, x, j, i, p);
      case GlobalPush(i, g, then_) => GlobalPushSteps(c, s, x, i, g, then_);
  }

  lemma {:induction false} RunInv(c: Config, states: seq<State>, events: seq<Event>, k: nat)
    requires Run(c, states, events) && k < |states|
    ensures PoolInv(c, states[k])
  {
    if k == 0 {
      InitPool(c, states[0]);
    } else {
      RunInv(c, states, events, k - 1);
      EventInv(c, states[k - 1], events[k - 1]);
    }
  }
}
