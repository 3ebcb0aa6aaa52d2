/**
  * The life cycle of a block tag between allocation, release and discard.
  *
  * Transactions hold the metadata lock; they change their own copies of block tags, and
  * the two trees of ready and in-progress blocks at once.  Aborting puts each touched
  * block back into the tree its committed status says.  The discard thread takes blocks
  * out of a tree, commits their in-progress marks, trims them with no lock held, and
  * commits their done marks.
  */
module Discard {
  datatype Status = None | Ready | Inp

  datatype Tag = Tag(used: bool, status: Status)

  type Tags = map<int, Tag>

  // A transaction's own copies, and whether it is the discard thread's.
  datatype Tx = NoTx | UserTx(own: Tags) | MarkTx(own: Tags) | DoneTx(own: Tags)

  datatype Phase = Idle | Selected | Marked

  datatype State = State(tags: Tags, tx: Tx, ready: set<int>, inp: set<int>,
                         phase: Phase, local: set<int>, trimmed: set<int>)

  // What the holder of the transaction sees.
  function View(tags: Tags, tx: Tx): Tags {
    if tx.NoTx? then tags else tags + tx.own
  }

  datatype Event =
    | Begin
    | AllocReady(b: int)          // pfs_metaobj_alloc_blktag, from the tree of ready blocks
    | AllocAny(b: int)            // the same, from the allocator
    | Free(b: int)                // pfs_metaobj_free_blktag
    | Commit
    | Abort
    | Select(chosen: set<int>)    // pfs_bd_select
    | MarkInp                     // pfs_bd_mark_inp, up to the commit
    | Trim(b: int)                // pfs_bd_execute, one block
    | GiveUp                      // a trim failed
    | MarkDone                    // pfs_bd_mark_done, up to the commit
    | Remount                     // a crash, and the trees built anew

  // pfs_meta_bd_mark_inp
  predicate MayMark(s: State, b: int) {
    b in s.tags &&
    ((s.tags[b].status == Ready && b !in s.ready) || (s.tags[b].status == Inp && b !in s.inp))
  }

  function MarkedNow(s: State): set<int> {
    set b | b in s.local && MayMark(s, b)
  }

  // pfs_meta_bd_mark_done
  function DoneNow(s: State): set<int> {
    set b | b in s.local && b in s.tags && s.tags[b].status == Inp && b !in s.inp
  }

  predicate Enabled(s: State, e: Event) {
    match e
    case Begin => s.tx.NoTx?
    case AllocReady(b) => s.tx.UserTx? && b in s.ready
    case AllocAny(b) =>
      && s.tx.UserTx? && s.ready == {}
      && b in View(s.tags, s.tx) && !View(s.tags, s.tx)[b].used && View(s.tags, s.tx)[b].status != Inp
    case Free(b) => s.tx.UserTx? && b in View(s.tags, s.tx) && View(s.tags, s.tx)[b].used
    case Commit => !s.tx.NoTx?
    case Abort => !s.tx.NoTx?
    case Select(chosen) =>
      s.tx.NoTx? && s.phase == Idle && (if s.inp != {} then chosen == s.inp else chosen <= s.ready)
    case MarkInp => s.tx.NoTx? && s.phase == Selected
    case Trim(b) => s.phase == Marked && !s.tx.DoneTx? && b in s.local
    case GiveUp => s.phase == Marked && !s.tx.DoneTx?
    case MarkDone => s.tx.NoTx? && s.phase == Marked && s.local <= s.trimmed
    case Remount => true
  }

  // pfs_meta_bd_change_index for every block the transaction touched
  function Reindexed(tags: Tags, touched: set<int>, tree: set<int>, st: Status): set<int> {
    (tree - touched) + (set b | b in touched && b in tags && tags[b].status == st)
  }

  function WithOwn(s: State, b: int, t: Tag): State
    requires s.tx.UserTx?
  {
    s.(tx := UserTx(s.tx.own[b := t]))
  }

  function Apply(s: State, e: Event): State
    requires Enabled(s, e)
  {
    match e
    case Begin => s.(tx := UserTx(map[]))
    case AllocReady(b) => WithOwn(s, b, Tag(true, None)).(ready := s.ready - {b})
    case AllocAny(b) => WithOwn(s, b, Tag(true, None))
    case Free(b) => WithOwn(s, b, Tag(false, Ready)).(ready := s.ready + {b})
    case Commit =>
      var s' := s.(tags := s.tags + s.tx.own, tx := NoTx);
      if s.tx.MarkTx? then s'.(phase := Marked, trimmed := {})
      else if s.tx.DoneTx? then s'.(phase := Idle, local := {})
      else s'
    case Abort =>
      var s' := s.(tx := NoTx, ready := Reindexed(s.tags, s.tx.own.Keys, s.ready, Ready),
                   inp := Reindexed(s.tags, s.tx.own.Keys, s.inp, Inp));
      if s.tx.UserTx? then s' else s'.(phase := Idle, local := {})
    case Select(chosen) =>
      if s.inp != {} then s.(phase := Selected, local := chosen, inp := {})
      else s.(phase := Selected, local := chosen, ready := s.ready - chosen)
    case MarkInp =>
      var marked := MarkedNow(s);
      s.(local := marked, tx := MarkTx((map b | b in marked :: Tag(s.tags[b].used, Inp))))
    case Trim(b) => s.(trimmed := s.trimmed + {b})
    case GiveUp => s.(phase := Idle, local := {})
    case MarkDone =>
      var done := DoneNow(s);
      s.(local := done, tx := DoneTx((map b | b in done :: Tag(s.tags[b].used, None))))
    case Remount =>
      s.(tx := NoTx, phase := Idle, local := {},
         ready := (set b | b in s.tags && s.tags[b].status == Ready),
         inp := (set b | b in s.tags && s.tags[b].status == Inp))
  }

  /** mkfs: nothing used, nothing waiting to be discarded. */
  predicate Init(s: State) {
    && s.tx.NoTx? && s.ready == {} && s.inp == {} && s.phase == Idle && s.local == {} && s.trimmed == {}
    && forall b: int :: b in s.tags ==> s.tags[b] == Tag(false, None)
  }

  ghost predicate Run(states: seq<State>, events: seq<Event>) {
    && |states| == |events| + 1 && Init(states[0])
    && forall k: nat :: k < |events| ==> Enabled(states[k], events[k]) && states[k + 1] == Apply(states[k], events[k])
  }

  // ---------------------------------------------------------------- invariants

  /** Only unused blocks wait for discard. */
  ghost predicate Waiting(tags: Tags) {
    forall b: int :: b in tags && tags[b].status != None ==> !tags[b].used
  }

  ghost predicate InTree(tags: Tags, tree: set<int>, st: Status) {
    forall b: int :: b in tree ==> b in tags && tags[b] == Tag(false, st)
  }

  /** Users never touch a block in progress; the discard thread's transactions touch its own blocks. */
  ghost predicate OwnOk(s: State) {
    match s.tx
    case NoTx => true
    case UserTx(own) =>
      forall b: int :: b in own ==> b in s.tags && s.tags[b].status != Inp && own[b].status != Inp
    case MarkTx(own) =>
      && s.phase == Selected && own.Keys == s.local
      && forall b: int :: b in own ==> b in s.tags && !s.tags[b].used && own[b] == Tag(false, Inp)
    case DoneTx(own) =>
      && s.phase == Marked && own.Keys == s.local && s.local <= s.trimmed
      && forall b: int :: b in own ==>
           b in s.tags && s.tags[b] == Tag(false, Inp) && own[b] == Tag(false, None) && b !in s.inp
  }

  ghost predicate Inv(s: State) {
    && Waiting(s.tags) && Waiting(View(s.tags, s.tx))
    && InTree(View(s.tags, s.tx), s.ready, Ready)
    && InTree(s.tags, s.inp, Inp)
    && OwnOk(s)
    && (s.phase == Marked ==>
      forall b: int :: b in s.local ==> b in s.tags && s.tags[b] == Tag(false, Inp) && b !in s.inp)
    && (s.tx.MarkTx? ==> s.local !! s.inp)
  }

  lemma EndInv(s: State, e: Event)
    requires Inv(s) && Enabled(s, e) && (e.Commit? || e.Abort?)
    ensures Inv(Apply(s, e))
  {
  }

  lemma MarkInv(s: State, e: Event)
    requires Inv(s) && Enabled(s, e) && (e.Select? || e.MarkInp? || e.MarkDone?)
    ensures Inv(Apply(s, e))
  {
    if e.MarkDone? {
      assert DoneNow(s) <= s.local;
    }
  }

  lemma EventInv(s: State, e: Event)
    requires Inv(s) && Enabled(s, e)
    ensures Inv(Apply(s, e))
  {
    if e.Commit? || e.Abort? {
      EndInv(s, e);
    } else if e.Select? || e.MarkInp? || e.MarkDone? {
      MarkInv(s, e);
    }
  }

  lemma {:induction false} RunInv(states: seq<State>, events: seq<Event>, k: nat)
    requires Run(states, events) && k < |states|
    ensures Inv(states[k])
  {
    if k > 0 {
      RunInv(states, events, k - 1);
      assert Enabled(states[k - 1], events[k - 1]);
      EventInv(states[k - 1], events[k - 1]);
    }
  }

  // ------------------------------------------------------------------ theorems

  /** A block handed to trim is unused, in progress, and not in any open user transaction. */
  lemma TrimIsSafe(states: seq<State>, events: seq<Event>, k: nat)
    requires Run(states, events) && k < |events| && events[k].Trim?
    ensures var s, b := states[k], events[k].b;
            && b in s.tags && s.tags[b] == Tag(false, Inp)
            && b in View(s.tags, s.tx) && !View(s.tags, s.tx)[b].used
            && (s.tx.UserTx? ==> b !in s.tx.own)
  {
    RunInv(states, events, k);
    assert Enabled(states[k], events[k]);
  }

  /**
    * From the commit of its in-progress mark on, a block stays unused and cannot be
    * allocated: the only event that ends this is the commit of its done mark, and then
    * the block has been trimmed.
    */
  lemma InProgressEndsOnlyWhenDone(states: seq<State>, events: seq<Event>, k: nat, b: int)
    requires Run(states, events) && k < |events|
    requires b in states[k].tags && states[k].tags[b].status == Inp
    ensures b in states[k + 1].tags && !states[k].tags[b].used
    ensures states[k + 1].tags[b] != states[k].tags[b] ==>
              events[k] == Commit && states[k].tx.DoneTx? && b in states[k].tx.own && b in states[k].trimmed
    ensures events[k] != AllocReady(b) && events[k] != AllocAny(b)
  {
    RunInv(states, events, k);
    var s, e := states[k], events[k];
    assert Enabled(s, e) && states[k + 1] == Apply(s, e);
  }

  /** The whole stretch between the two commits. */
  lemma {:induction false} UntouchableWhileInProgress(states: seq<State>, events: seq<Event>, i: nat, j: nat, b: int)
    requires Run(states, events) && i <= j < |states|
    requires b in states[i].tags && states[i].tags[b].status == Inp
    requires forall k: nat :: i <= k < j ==> !(events[k] == Commit && states[k].tx.DoneTx? && b in states[k].tx.own)
    ensures b in states[j].tags && states[j].tags[b] == Tag(false, Inp)
    ensures forall k: nat :: i <= k < j ==> events[k] != AllocReady(b) && events[k] != AllocAny(b)
    decreases j
  {
    RunInv(states, events, i);
    if i < j {
      UntouchableWhileInProgress(states, events, i, j - 1, b);
      InProgressEndsOnlyWhenDone(states, events, j - 1, b);
    }
  }

  /** What the allocator asserts of a block it takes from the tree of ready blocks. */
  lemma ReadyTreeIsReady(states: seq<State>, events: seq<Event>, k: nat, b: int)
    requires Run(states, events) && k < |events| && events[k] == AllocReady(b)
    ensures b in View(states[k].tags, states[k].tx) && View(states[k].tags, states[k].tx)[b] == Tag(false, Ready)
  {
    RunInv(states, events, k);
    assert Enabled(states[k], events[k]);
  }

  /** In progress, but in no tree and not with the discard thread: nothing will select it. */
  ghost predicate Stranded(s: State, b: int) {
    b in s.tags && s.tags[b] == Tag(false, Inp) && b !in s.inp && b !in s.local
  }

  /** An idle discard thread holds nothing, and its transactions belong to its rounds. */
  ghost predicate IdleHoldsNothing(s: State) {
    s.phase == Idle ==> s.local == {} && !s.tx.MarkTx? && !s.tx.DoneTx?
  }

  lemma {:induction false} RunIdle(states: seq<State>, events: seq<Event>, k: nat)
    requires Run(states, events) && k < |states|
    ensures IdleHoldsNothing(states[k])
  {
    if k > 0 {
      RunIdle(states, events, k - 1);
      RunInv(states, events, k - 1);
      assert Enabled(states[k - 1], events[k - 1]) && states[k] == Apply(states[k - 1], events[k - 1]);
    }
  }

  /**
    * A block is stranded exactly by the failure of a trim in the round that holds it, and stays so
    * until the next mount.
    */
  lemma FailedTrimStrands(states: seq<State>, events: seq<Event>, k: nat, b: int)
    requires Run(states, events) && k < |events|
    ensures !Stranded(states[k], b) && Stranded(states[k + 1], b) <==> events[k] == GiveUp && b in states[k].local
    ensures Stranded(states[k], b) ==> (Stranded(states[k + 1], b) <==> events[k] != Remount)
    ensures Stranded(states[k], b) && events[k] == Remount ==> b in states[k + 1].inp
  {
    hide Run;
    StepOf(states, events, k);
    RunInv(states, events, k);
    RunIdle(states, events, k);
    StrandStep(states[k], events[k], b);
  }

  // The k-th event gives the block up, and nothing mounts the volume anew before the n-th state.
  ghost predicate GivenUpSince(states: seq<State>, events: seq<Event>, k: nat, n: nat, b: int)
    requires |states| == |events| + 1 && n < |states|
  {
    k < n && events[k] == GiveUp && b in states[k].local && forall i: nat :: k < i < n ==> events[i] != Remount
  }

  /** In every reachable state the stranded blocks are those of the trims that failed since the last mount. */
  lemma {:induction false} StrandedSinceMount(states: seq<State>, events: seq<Event>, n: nat, b: int)
    requires Run(states, events) && n < |states|
    ensures Stranded(states[n], b) <==> exists k: nat :: GivenUpSince(states, events, k, n, b)
  {
    hide Enabled, Apply, Stranded;
    if n == 0 {
      NotYetStranded(states[0], b);
    } else {
      var m := n - 1;
      StrandedSinceMount(states, events, m, b);
      FailedTrimStrands(states, events, m, b);
      assert forall k: nat :: k < m ==>
        (GivenUpSince(states, events, k, n, b) <==> GivenUpSince(states, events, k, m, b) && events[m] != Remount);
      assert GivenUpSince(states, events, m, n, b) <==> events[m] == GiveUp && b in states[m].local;
    }
  }

  lemma NotYetStranded(s: State, b: int)
    requires Init(s)
    ensures !Stranded(s, b)
  {
  }

  lemma StepOf(states: seq<State>, events: seq<Event>, k: nat)
    requires Run(states, events) && k < |events|
    ensures |states| == |events| + 1 && Enabled(states[k], events[k]) && states[k + 1] == Apply(states[k], events[k])
  {
  }

  lemma StrandStep(s: State, e: Event, b: int)
    requires Inv(s) && IdleHoldsNothing(s) && Enabled(s, e)
    ensures !Stranded(s, b) && Stranded(Apply(s, e), b) <==> e == GiveUp && b in s.local
    ensures Stranded(s, b) ==> (Stranded(Apply(s, e), b) <==> e != Remount)
    ensures Stranded(s, b) && e == Remount ==> b in Apply(s, e).inp
  {
  }

  /** One block is used, freed, selected and marked, and then its trim fails. */
  lemma StrandingRun() returns (states: seq<State>, events: seq<Event>)
    ensures Run(states, events) && states[0].tags == map[7 := Tag(false, None)]
    ensures events == [Begin, AllocAny(7), Commit, Begin, Free(7), Commit, Select({7}), MarkInp, Commit, GiveUp]
    ensures Stranded(states[10], 7)
  {
    var ready, inp := Tag(false, Ready), Tag(false, Inp);
    var selected := State(map[7 := ready], NoTx, {}, {}, Selected, {7}, {});
    var marked := State(map[7 := ready], MarkTx(map[7 := inp]), {}, {}, Selected, {7}, {});
    states, events := Released();
    states, events := Grown(states, events, Select({7}), selected);
    assert Apply(selected, MarkInp) == marked by {
      assert MarkedNow(selected) == {7};
      assert Apply(selected, MarkInp).tx.own == map[7 := inp];
    }
    states, events := Grown(states, events, MarkInp, marked);
    states, events := Grown(states, events, Commit, State(map[7 := inp], NoTx, {}, {}, Marked, {7}, {}));
    states, events := Grown(states, events, GiveUp, State(map[7 := inp], NoTx, {}, {}, Idle, {}, {}));
  }

  lemma Released() returns (states: seq<State>, events: seq<Event>)
    ensures Run(states, events) && events == [Begin, AllocAny(7), Commit, Begin, Free(7), Commit]
    ensures states[0].tags == map[7 := Tag(false, None)]
    ensures states[6] == State(map[7 := Tag(false, Ready)], NoTx, {7}, {}, Idle, {}, {})
  {
    var used, ready := Tag(true, None), Tag(false, Ready);
    states, events := Allocated();
    states, events := Grown(states, events, Begin, State(map[7 := used], UserTx(map[]), {}, {}, Idle, {}, {}));
    states, events := Grown(states, events, Free(7),
                            State(map[7 := used], UserTx(map[7 := ready]), {7}, {}, Idle, {}, {}));
    states, events := Grown(states, events, Commit, State(map[7 := ready], NoTx, {7}, {}, Idle, {}, {}));
  }

  lemma Allocated() returns (states: seq<State>, events: seq<Event>)
    ensures Run(states, events) && events == [Begin, AllocAny(7), Commit]
    ensures states[0].tags == map[7 := Tag(false, None)]
    ensures states[3] == State(map[7 := Tag(true, None)], NoTx, {}, {}, Idle, {}, {})
  {
    var before := map[7 := Tag(false, None)];
    states, events := [State(before, NoTx, {}, {}, Idle, {}, {})], [];
    states, events := Grown(states, events, Begin, State(before, UserTx(map[]), {}, {}, Idle, {}, {}));
    states, events := Grown(states, events, AllocAny(7),
                            State(before, UserTx(map[7 := Tag(true, None)]), {}, {}, Idle, {}, {}));
    states, events := Grown(states, events, Commit, State(map[7 := Tag(true, None)], NoTx, {}, {}, Idle, {}, {}));
  }

  lemma Grown(states: seq<State>, events: seq<Event>, e: Event, s: State) returns (ss: seq<State>, es: seq<Event>)
    requires Run(states, events) && Enabled(states[|events|], e) && s == Apply(states[|events|], e)
    ensures Run(ss, es) && ss == states + [s] && es == events + [e]
  {
    ss, es := states + [s], events + [e];
  }

  // ------------------------------------------------------------- block numbers

  const TAGS_PER_CHUNK := 2560
  const TAG_STRIDE := 4096      // the next power of two

  function BlockNumber(btno: int): int {
    btno / TAG_STRIDE * TAGS_PER_CHUNK + btno % TAG_STRIDE
  }

  function TagNumber(blkno: int): int {
    blkno / TAGS_PER_CHUNK * TAG_STRIDE + blkno % TAGS_PER_CHUNK
  }

  /** Tag numbers and block numbers correspond one to one. */
  lemma NumbersRoundTrip(btno: int, blkno: int)
    requires btno >= 0 && blkno >= 0
    ensures BlockNumber(TagNumber(blkno)) == blkno
    ensures TagNumber(BlockNumber(btno)) == btno <==> btno % TAG_STRIDE < TAGS_PER_CHUNK
  {
    var c, t := blkno / TAGS_PER_CHUNK, blkno % TAGS_PER_CHUNK;
    assert TagNumber(blkno) == c * TAG_STRIDE + t;
    assert (c * TAG_STRIDE + t) / TAG_STRIDE == c && (c * TAG_STRIDE + t) % TAG_STRIDE == t;
    var d, u := btno / TAG_STRIDE, btno % TAG_STRIDE;
    assert btno == d * TAG_STRIDE + u && BlockNumber(btno) == d * TAGS_PER_CHUNK + u;
    if u < TAGS_PER_CHUNK {
      assert (d * TAGS_PER_CHUNK + u) / TAGS_PER_CHUNK == d;
    } else {
      assert (d * TAGS_PER_CHUNK + u) / TAGS_PER_CHUNK == d + 1;
    }
  }
}
