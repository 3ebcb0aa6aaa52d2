/**
  The shared-memory index pool: per-stripe free lists with a bounded size, a
  global list of full chains, and a counter of constructed elements, all changed
  by atomic loads, stores and compare-and-swap steps of any number of threads.
 */
module MemPool {

  type Tid = nat

  /** Highest index, number of local lists, and the size limit of a local list. */
  datatype Config = Config(actual: nat, lists: nat, limit: nat)

  predicate ValidConfig(c: Config) {
    c.lists >= 1 && c.limit < 255
  }

  /** Lower bound on the elements that can be out at the same time. */
  function Capacity(c: Config): (n: int) {
    c.actual - (c.lists - 1) * c.limit
  }

  // Tagged pointers: a chain head with a size in the low 8 bits and a tag above it.

  const TAG_INCR := 256

  datatype Ptr = Ptr(idx: nat, tagAndSize: nat)

  function Size(p: Ptr): (n: nat) {
    p.tagAndSize % TAG_INCR
  }

  function Tag(p: Ptr): (n: nat) {
    p.tagAndSize / TAG_INCR
  }

  function WithSize(p: Ptr, n: nat): (p': Ptr) {
    Ptr(p.idx, p.tagAndSize - p.tagAndSize % TAG_INCR + n)
  }

  function WithSizeIncr(p: Ptr): (p': Ptr) {
    Ptr(p.idx, p.tagAndSize + 1)
  }

  function WithSizeDecr(p: Ptr): (p': Ptr)
    requires p.tagAndSize > 0
  {
    Ptr(p.idx, p.tagAndSize - 1)
  }

  function WithIdx(p: Ptr, i: nat): (p': Ptr) {
    Ptr(i, p.tagAndSize + TAG_INCR)
  }

  function WithEmpty(p: Ptr): (p': Ptr) {
    WithSize(WithIdx(p, 0), 0)
  }

  // Threads.

  datatype AllocPc =
    | PopLoad
    | PopNext(h: Ptr)
    | PopCas(h: Ptr, next: nat)
    | GpopLoad(h: Ptr)
    | GpopNext(h: Ptr, gh: Ptr)
    | GpopCas(h: Ptr, gh: Ptr, next: nat)
    | SizeLoad
    | SizeIncr
    | BulkNext(h: Ptr, i: nat)
    | BulkCas(h: Ptr, i: nat, next: nat)
    | Mark(i: nat)

  datatype PushPc = PushLoad | PushStore(h: Ptr) | PushCas(h: Ptr)

  datatype GpushPc = GpushLoad | GpushStore(gh: Ptr) | GpushCas(gh: Ptr)

  /** What follows a global push: the recycle is done, or an allocation on stripe j starts over. */
  datatype Then = Done | Again(j: nat)

  /** At rest with the last allocation's result (0 for none), allocating, recycling, or pushing a chain. */
  datatype Thread =
    | Rest(result: nat)
    | Alloc(j: nat, a: AllocPc)
    | Recycle(j: nat, i: nat, p: PushPc)
    | GlobalPush(i: nat, g: GpushPc, then_: Then)

  // Where elements are, for the proofs: with a client, in a local list, in a global chain, or in flight.

  datatype Owner = Client | Loc(j: nat) | Glob(head: nat) | Fly(x: Tid)

  datatype Own = Own(chains: map<Owner, seq<nat>>, place: map<nat, Owner>)

  function At(own: Own, o: Owner): (c: seq<nat>) {
    if o in own.chains then own.chains[o] else []
  }

  /** Redistribute the elements of two owners. */
  function Rehome(own: Own, a: Owner, sa: seq<nat>, b: Owner, sb: seq<nat>): (own': Own) {
    own.(chains := own.chains[a := sa][b := sb],
         place := map i | i in own.place :: if i in sa then a else if i in sb then b else own.place[i])
  }

  // The pool.

  /** localNext is -1 for an element a client holds. */
  datatype Mem = Mem(localNext: seq<int>, globalNext: seq<nat>)

  /** The list heads, and for the proofs the heads of the chains in the global list. */
  datatype Heads = Heads(local: seq<Ptr>, global: Ptr, listed: seq<nat>)

  datatype State = State(mem: Mem, heads: Heads, size: nat, threads: map<Tid, Thread>, own: Own)

  datatype Event =
    | Spawn(x: Tid)
    | StartAlloc(x: Tid, j: nat)
    | StartRecycle(x: Tid, j: nat, i: nat)
    | Step(x: Tid)

  predicate Shaped(c: Config, s: State) {
    && |s.mem.localNext| == |s.mem.globalNext| == c.actual + 1
    && |s.heads.local| == c.lists
  }

  ghost predicate Init(c: Config, s: State) {
    && ValidConfig(c) && Shaped(c, s)
    && s.size == 0 && s.heads.global == Ptr(0, 0) && s.heads.listed == []
    && (forall j | 0 <= j < c.lists :: s.heads.local[j] == Ptr(0, 0))
    && s.threads == map[] && s.own == Own(map[], map[])
  }

  /** Recycling is for elements a client holds. */
  predicate Enabled(c: Config, s: State, e: Event) {
    && Shaped(c, s)
    && match e
       case Spawn(x) => x !in s.threads
       case StartAlloc(x, j) => x in s.threads && s.threads[x].Rest? && j < c.lists
       case StartRecycle(x, j, i) =>
         x in s.threads && s.threads[x].Rest? && j < c.lists && i in s.own.place && s.own.place[i].Client?
       case Step(x) => x in s.threads && !s.threads[x].Rest?
  }

  function SetThread(s: State, x: Tid, th: Thread): (s': State) {
    s.(threads := s.threads[x := th])
  }

  function LocalAt(s: State, j: nat): (p: Ptr) {
    if j < |s.heads.local| then s.heads.local[j] else Ptr(0, 0)
  }

  function SetLocal(s: State, j: nat, p: Ptr): (s': State) {
    if j < |s.heads.local| then s.(heads := s.heads.(local := s.heads.local[j := p])) else s
  }

  function LocalNext(s: State, i: nat): (n: int) {
    if i < |s.mem.localNext| then s.mem.localNext[i] else 0
  }

  function GlobalNext(s: State, i: nat): (n: nat) {
    if i < |s.mem.globalNext| then s.mem.globalNext[i] else 0
  }

  function SetLocalNext(s: State, i: nat, n: int): (s': State) {
    if i < |s.mem.localNext| then s.(mem := s.mem.(localNext := s.mem.localNext[i := n])) else s
  }

  function SetGlobalNext(s: State, i: nat, n: nat): (s': State) {
    if i < |s.mem.globalNext| then s.(mem := s.mem.(globalNext := s.mem.globalNext[i := n])) else s
  }

  function AsIndex(n: int): (i: nat) {
    if n < 0 then 0 else n
  }

  function Tail(c: seq<nat>): (t: seq<nat>) {
    if c == [] then [] else c[1..]
  }

  /** A successful pop from the local list. */
  function TakeLocal(s: State, x: Tid, j: nat, h: Ptr, next: nat): (s': State) {
    SetThread(SetLocal(s, j, WithSizeDecr(WithIdx(h, next))), x, Alloc(j, Mark(h.idx)))
      .(own := Rehome(s.own, Loc(j), Tail(At(s.own, Loc(j))), Fly(x), [h.idx]))
  }

  /** A successful pop of a whole chain from the global list. */
  function TakeGlobal(s: State, x: Tid, j: nat, h: Ptr, gh: Ptr, next: nat): (s': State) {
    SetThread(s.(heads := s.heads.(global := WithIdx(gh, next), listed := Tail(s.heads.listed))), x,
      Alloc(j, BulkNext(h, gh.idx)))
      .(own := Rehome(s.own, Glob(gh.idx), [], Fly(x), At(s.own, Glob(gh.idx))))
  }

  /** A chain becomes the local list, except for its head, which the thread keeps. */
  function PutBulk(c: Config, s: State, x: Tid, j: nat, h: Ptr, i: nat, next: nat): (s': State) {
    SetThread(SetLocal(s, j, WithSize(WithIdx(h, next), c.limit)), x, Alloc(j, Mark(i)))
      .(own := Rehome(s.own, Loc(j), Tail(At(s.own, Fly(x))), Fly(x), [i]))
  }

  /** The next element is constructed for this thread. */
  function Construct(s: State, x: Tid, j: nat): (s': State) {
    var i := s.size + 1;
    SetThread(s.(size := i), x, Alloc(j, Mark(i)))
      .(own := s.own.(chains := s.own.chains[Fly(x) := [i]], place := s.own.place[i := Fly(x)]))
  }

  function AllocAt(s: State, x: Tid, j: nat, a: AllocPc): (s': State) {
    SetThread(s, x, Alloc(j, a))
  }

  function AllocStep(c: Config, s: State, x: Tid, j: nat, a: AllocPc): (s': State) {
    match a
    case PopLoad => AllocAt(s, x, j, if LocalAt(s, j).idx != 0 then PopNext(LocalAt(s, j)) else GpopLoad(LocalAt(s, j)))
    case PopNext(h) => AllocAt(s, x, j, PopCas(h, AsIndex(LocalNext(s, h.idx))))
    case PopCas(h, next) =>
      if LocalAt(s, j) == h then TakeLocal(s, x, j, h, next) else AllocAt(s, x, j, PopLoad)
    case GpopLoad(h) => AllocAt(s, x, j, if s.heads.global.idx == 0 then SizeLoad else GpopNext(h, s.heads.global))
    case GpopNext(h, gh) => AllocAt(s, x, j, GpopCas(h, gh, GlobalNext(s, gh.idx)))
    case GpopCas(h, gh, next) => if s.heads.global == gh then TakeGlobal(s, x, j, h, gh, next)
      else AllocAt(s, x, j, GpopLoad(h))
    case SizeLoad => if s.size >= c.actual then SetThread(s, x, Rest(0)) else AllocAt(s, x, j, SizeIncr)
    case SizeIncr => if s.size + 1 > c.actual then SetThread(s.(size := s.size + 1), x, Rest(0)) else Construct(s, x, j)
    case BulkNext(h, i) => AllocAt(s, x, j, BulkCas(h, i, AsIndex(LocalNext(s, i))))
    case BulkCas(h, i, next) =>
      if LocalAt(s, j) == h then PutBulk(c, s, x, j, h, i, next)
      else SetThread(s, x, GlobalPush(i, GpushLoad, Again(j)))
    case Mark(i) =>
      SetThread(SetLocalNext(s, i, -1), x, Rest(i))
        .(own := s.own.(chains := s.own.chains[Fly(x) := []], place := s.own.place[i := Client]))
  }

  /** A successful push onto the local list, or the theft of a full one with the new element on top. */
  function PutLocal(c: Config, s: State, x: Tid, j: nat, i: nat, h: Ptr): (s': State) {
    var l := At(s.own, Loc(j));
    if Size(h) == c.limit then
      SetThread(SetLocal(s, j, WithEmpty(h)), x, GlobalPush(i, GpushLoad, Done))
        .(own := Rehome(s.own, Loc(j), [], Fly(x), [i] + l))
    else
      SetThread(SetLocal(s, j, WithSizeIncr(WithIdx(h, i))), x, Rest(0))
        .(own := Rehome(s.own, Loc(j), [i] + l, Fly(x), []))
  }

  function RecycleStep(c: Config, s: State, x: Tid, j: nat, i: nat, p: PushPc): (s': State) {
    match p
    case PushLoad => SetThread(s, x, Recycle(j, i, PushStore(LocalAt(s, j))))
    case PushStore(h) => SetThread(SetLocalNext(s, i, h.idx), x, Recycle(j, i, PushCas(h)))
    case PushCas(h) =>
      if LocalAt(s, j) == h then PutLocal(c, s, x, j, i, h)
      else SetThread(s, x, Recycle(j, i, PushStore(LocalAt(s, j))))
  }

  function GlobalPushStep(s: State, x: Tid, i: nat, g: GpushPc, then_: Then): (s': State) {
    match g
    case GpushLoad => SetThread(s, x, GlobalPush(i, GpushStore(s.heads.global), then_))
    case GpushStore(gh) => SetThread(SetGlobalNext(s, i, gh.idx), x, GlobalPush(i, GpushCas(gh), then_))
    case GpushCas(gh) =>
      if s.heads.global == gh then
        SetThread(s.(heads := s.heads.(global := WithIdx(gh, i), listed := [i] + s.heads.listed)), x,
                  if then_.Done? then Rest(0) else Alloc(then_.j, PopLoad))
          .(own := Rehome(s.own, Fly(x), [], Glob(i), At(s.own, Fly(x))))
      else SetThread(s, x, GlobalPush(i, GpushLoad, then_))
  }

  function Apply(c: Config, s: State, e: Event): (s': State)
    requires Enabled(c, s, e)
  {
    match e
    case Spawn(x) => SetThread(s, x, Rest(0))
    case StartAlloc(x, j) => SetThread(s, x, Alloc(j, PopLoad))
    case StartRecycle(x, j, i) =>
      SetThread(s, x, Recycle(j, i, PushLoad))
        .(own := s.own.(chains := s.own.chains[Fly(x) := [i]], place := s.own.place[i := Fly(x)]))
    case Step(x) =>
      match s.threads[x]
      case Alloc(j, a) => AllocStep(c, s, x, j, a)
      case Recycle(j, i, p) => RecycleStep(c, s, x, j, i, p)
      case GlobalPush(i, g, then_) => GlobalPushStep(s, x, i, g, then_)
  }

  ghost predicate Run(c: Config, states: seq<State>, events: seq<Event>) {
    && |states| == |events| + 1
    && Init(c, states[0])
    && forall k | 0 <= k < |events| ::
         Enabled(c, states[k], events[k]) && states[k + 1] == Apply(c, states[k], events[k])
  }
}
