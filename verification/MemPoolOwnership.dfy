/**
  Bookkeeping of who owns which element: every element has one owner, and moving
  elements between two owners keeps it that way.
 */
module MemPoolOwnership {
  import opened MemPool

  predicate NoDup(c: seq<nat>) {
    forall i, j | 0 <= i < j < |c| :: c[i] != c[j]
  }

  /** Chains hold exactly the elements placed with their owner, each once. */
  ghost predicate OwnInv(own: Own) {
    && Client !in own.chains
    && (forall o :: NoDup(At(own, o)))
    && (forall o, i | i in At(own, o) :: i in own.place && own.place[i] == o)
    && (forall i | i in own.place && own.place[i] != Client :: i in At(own, own.place[i]))
  }

  lemma InOneChain(own: Own, a: Owner, b: Owner, i: nat)
    requires OwnInv(own) && i in At(own, a) && i in At(own, b)
    ensures a == b
  {
    assert own.place[i] == a && own.place[i] == b;
  }

  lemma RehomeInv(own: Own, a: Owner, sa: seq<nat>, b: Owner, sb: seq<nat>)
    requires OwnInv(own) && a != b && a != Client && b != Client
    requires NoDup(sa) && NoDup(sb) && forall i | i in sa :: i !in sb
    requires forall i: nat :: i in sa || i in sb <==> i in At(own, a) || i in At(own, b)
    ensures OwnInv(Rehome(own, a, sa, b, sb))
    ensures At(Rehome(own, a, sa, b, sb), a) == sa && At(Rehome(own, a, sa, b, sb), b) == sb
    ensures Rehome(own, a, sa, b, sb).place.Keys == own.place.Keys
    ensures forall o | o != a && o != b :: At(Rehome(own, a, sa, b, sb), o) == At(own, o)
  {
    var own' := Rehome(own, a, sa, b, sb);
    forall o, i | i in At(own', o) ensures i in own'.place && own'.place[i] == o {
      if o == a || o == b {
        assert i in At(own, a) || i in At(own, b);
      } else {
        assert At(own', o) == At(own, o);
        if i in At(own, a) { InOneChain(own, a, o, i); }
        if i in At(own, b) { InOneChain(own, b, o, i); }
      }
    }
    forall o ensures NoDup(At(own', o)) {
      assert NoDup(At(own, o));
    }
    forall i | i in own'.place && own'.place[i] != Client ensures i in At(own', own'.place[i]) {
      if i !in sa && i !in sb {
        assert i in At(own, own.place[i]);
      }
    }
  }

  /** A client hands in element i, or a new element appears, and thread x flies it. */
  lemma TakeUpInv(own: Own, x: Tid, i: nat)
    requires OwnInv(own) && At(own, Fly(x)) == [] && (i in own.place ==> own.place[i] == Client)
    ensures var own' := own.(chains := own.chains[Fly(x) := [i]], place := own.place[i := Fly(x)]);
            OwnInv(own') && forall o | o != Fly(x) :: At(own', o) == At(own, o)
  {
    var own' := own.(chains := own.chains[Fly(x) := [i]], place := own.place[i := Fly(x)]);
    forall o, k | k in At(own', o) ensures k in own'.place && own'.place[k] == o {
      if o != Fly(x) {
        assert At(own', o) == At(own, o);
        assert k in own.place && own.place[k] == o;
      }
    }
    forall o ensures NoDup(At(own', o)) {
      assert NoDup(At(own, o));
    }
    forall k | k in own'.place && own'.place[k] != Client ensures k in At(own', own'.place[k]) {
      if k != i {
        assert k in At(own, own.place[k]);
      }
    }
  }

  /** Thread x gives the one element it flies to a client. */
  lemma HandOutInv(own: Own, x: Tid, i: nat)
    requires OwnInv(own) && At(own, Fly(x)) == [i]
    ensures var own' := own.(chains := own.chains[Fly(x) := []], place := own.place[i := Client]);
            OwnInv(own') && forall o | o != Fly(x) :: At(own', o) == At(own, o)
  {
    var own' := own.(chains := own.chains[Fly(x) := []], place := own.place[i := Client]);
    assert i in At(own, Fly(x));
    forall o, k | k in At(own', o) ensures k in own'.place && own'.place[k] == o {
      if o != Fly(x) {
        assert At(own', o) == At(own, o);
        assert k in own.place && own.place[k] == o;
      }
    }
    forall o ensures NoDup(At(own', o)) {
      assert NoDup(At(own, o));
    }
    forall k | k in own'.place && own'.place[k] != Client ensures k in At(own', own'.place[k]) {
      if k != i {
        assert k in At(own, own.place[k]);
        assert own.place[k] == Fly(x) ==> k in [i];
      }
    }
  }

  // Chains in memory.

  function First(c: seq<nat>): (i: nat) {
    if c == [] then 0 else c[0]
  }

  /** localNext threads the elements of c in order and ends in 0. */
  ghost predicate Linked(localNext: seq<int>, c: seq<nat>) {
    c == [] || (0 < c[0] < |localNext| && localNext[c[0]] == First(c[1..]) && Linked(localNext, c[1..]))
  }

  lemma LinkedPush(localNext: seq<int>, i: nat, c: seq<nat>)
    requires Linked(localNext, c) && 0 < i < |localNext| && localNext[i] == First(c)
    ensures Linked(localNext, [i] + c)
  {
    assert ([i] + c)[1..] == c;
  }

  lemma {:induction false} LinkedWrite(localNext: seq<int>, c: seq<nat>, i: nat, n: int)
    requires Linked(localNext, c) && i !in c && i < |localNext|
    ensures Linked(localNext[i := n], c)
  {
    if c != [] {
      LinkedWrite(localNext, c[1..], i, n);
    }
  }

  // Tagged pointers.

  lemma TagWithIdx(p: Ptr, i: nat)
    ensures Tag(WithIdx(p, i)) == Tag(p) + 1 && Size(WithIdx(p, i)) == Size(p)
  {
  }

  lemma TagWithSize(p: Ptr, n: nat)
    requires n < TAG_INCR
    ensures Tag(WithSize(p, n)) == Tag(p) && Size(WithSize(p, n)) == n
  {
  }

  lemma TagIncr(p: Ptr)
    requires Size(p) + 1 < TAG_INCR
    ensures Tag(WithSizeIncr(p)) == Tag(p) && Size(WithSizeIncr(p)) == Size(p) + 1
  {
  }

  lemma TagDecr(p: Ptr)
    requires Size(p) > 0
    ensures Tag(WithSizeDecr(p)) == Tag(p) && Size(WithSizeDecr(p)) == Size(p) - 1
  {
  }

  /** The pointer was current once: it still is, or the tag has moved on for good. */
  predicate Known(h: Ptr, cur: Ptr) {
    h == cur || Tag(h) < Tag(cur)
  }
}
