/**
  * The exchange pfs_avl_remove makes before it removes an interior node: the neighbour
  * `b` takes the place of node `a`, and the stack node `t` takes the place of `b`.
  * Seen from outside this is a renaming of nodes: every pointer to a becomes one to b,
  * and every pointer to b becomes one to t.
  */
module AvlExchange {
  import opened AvlShape
  import opened AvlLinks

  function Ren(x: int, a: int, b: int, t: int): int {
    if x == a then b else if x == b then t else x
  }

  function RenLinks(c: Links, a: int, b: int, t: int): Links {
    c.(kid0 := Ren(c.kid0, a, b, t), kid1 := Ren(c.kid1, a, b, t), parent := Ren(c.parent, a, b, t))
  }

  function Rename(s: Shape, a: int, b: int, t: int): Shape {
    if s.Leaf? then Leaf else Fork(Ren(s.id, a, b, t), Rename(s.left, a, b, t), Rename(s.right, a, b, t))
  }

  function RenLine(line: seq<int>, a: int, b: int, t: int): (r: seq<int>)
    ensures |r| == |line| && forall i: nat :: i < |line| ==> r[i] == Ren(line[i], a, b, t)
  {
    if line == [] then [] else RenLine(line[..|line| - 1], a, b, t) + [Ren(line[|line| - 1], a, b, t)]
  }

  lemma {:induction false} RenamedIds(s: Shape, a: int, b: int, t: int, x: int)
    requires t !in Ids(s) && a != b && a != t && b != t
    ensures x in Ids(Rename(s, a, b, t)) <==>
              (if x == a then false else if x == b then a in Ids(s) else if x == t then b in Ids(s) else x in Ids(s))
    decreases s
  {
    if s.Fork? {
      RenamedIds(s.left, a, b, t, x);
      RenamedIds(s.right, a, b, t, x);
    }
  }

  lemma {:induction false} RenamedShape(s: Shape, a: int, b: int, t: int)
    requires t > 0 && b > 0 && t !in Ids(s) && a != b && a != t && b != t && Apart(s)
    ensures var r := Rename(s, a, b, t);
            && Height(r) == Height(s) && Size(r) == Size(s) && Tilt(r) == Tilt(s) && Apart(r)
            && (Balanced(r) <==> Balanced(s))
    decreases s
  {
    if s.Fork? {
      RenamedShape(s.left, a, b, t);
      RenamedShape(s.right, a, b, t);
      forall x: int
        ensures x in Ids(Rename(s.left, a, b, t)) ==> x !in Ids(Rename(s.right, a, b, t)) && x != Ren(s.id, a, b, t)
        ensures x in Ids(Rename(s.right, a, b, t)) ==> x != Ren(s.id, a, b, t)
      {
        RenamedIds(s.left, a, b, t, x);
        RenamedIds(s.right, a, b, t, x);
      }
    }
  }

  lemma {:induction false} RenamedLine(s: Shape, a: int, b: int, t: int, d: int)
    requires 0 <= d <= 1
    ensures Line(Rename(s, a, b, t), d) == RenLine(Line(s, d), a, b, t)
    decreases s
  {
    hide RenLine;
    if s.Fork? {
      RenamedLine(s.left, a, b, t, d);
      RenamedLine(s.right, a, b, t, d);
      if d == 1 {
        RenLineJoin(Line(s.left, d), s.id, Line(s.right, d), a, b, t);
      } else {
        RenLineJoin(Line(s.right, d), s.id, Line(s.left, d), a, b, t);
      }
    } else {
      assert |RenLine([], a, b, t)| == 0;
    }
  }

  lemma RenLineJoin(x: seq<int>, i: int, y: seq<int>, a: int, b: int, t: int)
    ensures RenLine(x + [i] + y, a, b, t) == RenLine(x, a, b, t) + [Ren(i, a, b, t)] + RenLine(y, a, b, t)
  {
    hide RenLine;
  }

  lemma {:induction false} RenamedRep(mem: Memory, mem': Memory, s: Shape, parent: int, side: int, a: int, b: int,
                                      t: int)
    requires Rep(mem, s, parent, side) && a != 0 && b != 0 && t > 0 && t !in Ids(s) && a != b && a != t && b != t
    requires forall i: int :: i in Ids(s) && i in mem ==>
               Ren(i, a, b, t) in mem' && mem'[Ren(i, a, b, t)] == RenLinks(mem[i], a, b, t)
    requires Apart(s)
    ensures Rep(mem', Rename(s, a, b, t), Ren(parent, a, b, t), side)
    ensures Top(Rename(s, a, b, t)) == Ren(Top(s), a, b, t)
    decreases s
  {
    if s.Fork? {
      RenamedRep(mem, mem', s.left, s.id, 0, a, b, t);
      RenamedRep(mem, mem', s.right, s.id, 1, a, b, t);
      RenamedTilt(s, a, b, t);
    }
  }

  lemma RenamedTilt(s: Shape, a: int, b: int, t: int)
    requires t > 0 && t !in Ids(s) && a != b && a != t && b != t && Apart(s) && s.Fork?
    ensures Tilt(Rename(s, a, b, t)) == Tilt(s)
  {
    RenamedHeight(s.left, a, b, t);
    RenamedHeight(s.right, a, b, t);
  }

  lemma {:induction false} RenamedHeight(s: Shape, a: int, b: int, t: int)
    ensures Height(Rename(s, a, b, t)) == Height(s)
    decreases s
  {
    if s.Fork? {
      RenamedHeight(s.left, a, b, t);
      RenamedHeight(s.right, a, b, t);
    }
  }

  // --------------------------------------------------- pointers point both ways

  // The height of the subtree under node i.
  ghost function Rank(s: Shape, i: int): nat {
    if s.Leaf? then 0 else if s.id == i then Height(s) else if i in Ids(s.left) then Rank(s.left, i)
      else Rank(s.right, i)
  }

  ghost predicate KidAgrees(mem: Memory, s: Shape, i: int, d: int)
    requires i in mem
  {
    var k := KidOf(mem[i], d);
    k != 0 ==> k in Ids(s) && k in mem && mem[k].parent == i && mem[k].side == d && Rank(s, k) < Rank(s, i)
  }

  /** The kids of node i point back at it and are lower, and it hangs where its parent says. */
  ghost predicate Agrees(mem: Memory, s: Shape, i: int) {
    && i in mem && KidAgrees(mem, s, i, 0) && KidAgrees(mem, s, i, 1)
    && (i != Top(s) ==>
          && mem[i].parent in Ids(s) && mem[i].parent in mem && 0 <= mem[i].side <= 1
          && KidOf(mem[mem[i].parent], mem[i].side) == i && Rank(s, i) < Rank(s, mem[i].parent))
  }

  lemma RankKids(s: Shape)
    requires s.Fork? && Apart(s)
    ensures s.left.Fork? ==> Rank(s, s.left.id) == Rank(s.left, s.left.id) < Rank(s, s.id)
    ensures s.right.Fork? ==> Rank(s, s.right.id) == Rank(s.right, s.right.id) < Rank(s, s.id)
    ensures forall i: int :: i in Ids(s.left) ==> Rank(s, i) == Rank(s.left, i)
    ensures forall i: int :: i in Ids(s.right) ==> Rank(s, i) == Rank(s.right, i)
  {
  }

  lemma {:induction false} LinksAgree(mem: Memory, s: Shape, parent: int, side: int, i: int)
    requires Rep(mem, s, parent, side) && Apart(s) && i in Ids(s)
    ensures Agrees(mem, s, i)
    decreases s
  {
    hide Height;
    TopIsIn(s.left);
    TopIsIn(s.right);
    RankKids(s);
    if i in Ids(s.left) {
      LinksAgree(mem, s.left, s.id, 0, i);
    } else if i in Ids(s.right) {
      LinksAgree(mem, s.right, s.id, 1, i);
    }
  }

  // ------------------------------------------------------------- the exchange

  /** Node a has two kids, b below it has at most one, on the side its balance says; t is new. */
  ghost predicate MayExchange(mem: Memory, s: Shape, a: int, b: int, t: int) {
    && (forall i: int :: i in Ids(s) ==> Agrees(mem, s, i))
    && 0 !in Ids(s) && a in Ids(s) && b in Ids(s) && t !in Ids(s) && t > 0 && a != b
    && s.Fork? && s.id in mem && mem[s.id].parent == 0
    && a in mem && b in mem && b != s.id
    && (mem[b].parent == a || Rank(s, mem[b].parent) < Rank(s, a)) && Rank(s, b) < Rank(s, a)
    && mem[a].kid0 != 0 && mem[a].kid1 != 0
    && (mem[b].kid0 == 0 || mem[b].kid1 == 0)
    && (mem[b].kid0 != 0 ==> mem[b].bal < 0) && (mem[b].kid1 != 0 ==> mem[b].bal > 0)
  }

  // Writes through a pointer; through the null pointer there is nothing to write.
  function Update(mem: Memory, i: int, c: Links): Memory {
    if i != 0 && i in mem then mem[i := c] else mem
  }

  function At(mem: Memory, i: int): Links {
    if i in mem then mem[i] else Links(0, 0, 0, 0, 0)
  }

  // The exchange in the order of pfs_avl_remove: a's place goes to b, b's place to t.
  function Exchanged(mem: Memory, a: int, b: int, t: int): Memory
    requires a in mem && b in mem
  {
    var m0 := mem[t := mem[b]][b := mem[a]];
    var m1 := if mem[b].parent == a then m0[b := WithKid(mem[a], mem[b].side, t)] else m0;
    var m2 := Update(m1, mem[a].parent, WithKid(At(m1, mem[a].parent), mem[a].side, b));
    var m3 := Update(m2, At(m1, b).kid0, At(m2, At(m1, b).kid0).(parent := b));
    var m4 := Update(m3, At(m1, b).kid1, At(m3, At(m1, b).kid1).(parent := b));
    var parent := At(m4, t).parent;
    var m5 := Update(m4, parent, WithKid(At(m4, parent), mem[b].side, t));
    var kid := KidOf(mem[b], if mem[b].bal > 0 then 1 else 0);
    Update(m5, kid, At(m5, kid).(parent := t))
  }

  // b's only kid, if it has one
  function OnlyKid(c: Links): int {
    KidOf(c, if c.bal > 0 then 1 else 0)
  }

  /** The pointers around a and b, and which of them can coincide. */
  ghost predicate Spread(mem: Memory, a: int, b: int, t: int)
    requires a in mem && b in mem
  {
    var p, k, x, y, q := mem[a].parent, OnlyKid(mem[b]), mem[a].kid0, mem[a].kid1, mem[b].parent;
    && a != b && a != t && b != t && a != 0 && b != 0 && t != 0
    && p !in {a, b, t, x, y} && (p != 0 ==> p in mem && p != k)
    && k !in {a, b, t} && (k != 0 ==> k in mem && k != q && k != x && k != y)
    && x !in {a, t, y, 0} && x in mem && y !in {a, t, 0} && y in mem
    && q !in {b, t, 0} && q in mem && q != p
    && (q == a <==> x == b || y == b) && 0 <= mem[b].side <= 1
    && (x == b <==> q == a && mem[b].side == 0) && (y == b <==> q == a && mem[b].side == 1)
  }

  lemma {:induction false} Neighbours(mem: Memory, s: Shape, a: int, b: int, t: int)
    requires MayExchange(mem, s, a, b, t)
    ensures Spread(mem, a, b, t)
  {
    hide Rank, Height, Ids;
    assert Agrees(mem, s, a) && Agrees(mem, s, b);
    assert KidAgrees(mem, s, a, 0) && KidAgrees(mem, s, a, 1) && KidAgrees(mem, s, b, 0) && KidAgrees(mem, s, b, 1);
    assert Agrees(mem, s, mem[b].parent);
    if a != s.id {
      assert Agrees(mem, s, mem[a].parent);
    }
  }

  /** What the exchange leaves in the cells of b and t. */
  lemma ExchangedOwn(mem: Memory, a: int, b: int, t: int)
    requires a in mem && b in mem && Spread(mem, a, b, t)
    ensures var m := Exchanged(mem, a, b, t);
            && b in m && m[b] == (if mem[b].parent == a then WithKid(mem[a], mem[b].side, t) else mem[a])
            && t in m && m[t] == mem[b].(parent := if mem[b].parent == a then b else mem[b].parent)
  {
    if mem[b].parent == a {
      KidsAfter(mem[a], mem[b].side, t);
    }
  }

  lemma KidsAfter(c: Links, d: int, t: int)
    requires 0 <= d <= 1
    ensures var w := WithKid(c, d, t);
            && w.kid0 == (if d == 0 then t else c.kid0) && w.kid1 == (if d == 0 then c.kid1 else t)
            && WithKid(w, d, t) == w
  {
  }

  // What it leaves in another cell.
  function OtherCell(mem: Memory, a: int, b: int, t: int, i: int): Links
    requires a in mem && b in mem && i in mem
  {
    var c1 := if i == mem[a].parent then WithKid(mem[i], mem[a].side, b) else mem[i];
    var c2 := if i == mem[a].kid0 || i == mem[a].kid1 then c1.(parent := b) else c1;
    var c3 := if i == mem[b].parent then WithKid(c2, mem[b].side, t) else c2;
    if i == OnlyKid(mem[b]) then c3.(parent := t) else c3
  }

  lemma ExchangedOther(mem: Memory, a: int, b: int, t: int, i: int)
    requires a in mem && b in mem && Spread(mem, a, b, t) && i in mem && i !in {a, b, t, 0}
    ensures i in Exchanged(mem, a, b, t) && Exchanged(mem, a, b, t)[i] == OtherCell(mem, a, b, t, i)
  {
    if mem[b].parent == a {
      KidsAfter(mem[a], mem[b].side, t);
    }
  }

  lemma {:induction false} OtherIsRenamed(mem: Memory, s: Shape, a: int, b: int, t: int, i: int)
    requires MayExchange(mem, s, a, b, t) && Spread(mem, a, b, t) && i in Ids(s) && i in mem && i !in {a, b}
    ensures OtherCell(mem, a, b, t, i) == RenLinks(mem[i], a, b, t)
  {
    hide Rank, Height, Ids;
    assert Agrees(mem, s, i) && Agrees(mem, s, a) && Agrees(mem, s, b);
    assert KidAgrees(mem, s, i, 0) && KidAgrees(mem, s, i, 1);
    assert KidAgrees(mem, s, a, 0) && KidAgrees(mem, s, a, 1) && KidAgrees(mem, s, b, 0) && KidAgrees(mem, s, b, 1);
  }

  /** The exchange renames the whole tree. */
  lemma {:induction false} ExchangeRenames(mem: Memory, s: Shape, a: int, b: int, t: int)
    requires Apart(s) && Balanced(s) && Rep(mem, s, 0, 0) && a in mem && b in mem && MayExchange(mem, s, a, b, t)
    ensures var r, m := Rename(s, a, b, t), Exchanged(mem, a, b, t);
            Apart(r) && Balanced(r) && Rep(m, r, 0, 0) && Top(r) == Ren(Top(s), a, b, t)
  {
    hide Rep, Rename, Balanced, Height, Exchanged, Agrees;
    Neighbours(mem, s, a, b, t);
    var m := Exchanged(mem, a, b, t);
    TopIsIn(s);
    forall i: int | i in Ids(s) && i in mem
      ensures Ren(i, a, b, t) in m && m[Ren(i, a, b, t)] == RenLinks(mem[i], a, b, t)
    {
      if i == a || i == b {
        ExchangedOwn(mem, a, b, t);
        OwnIsRenamed(mem, s, a, b, t);
      } else {
        ExchangedOther(mem, a, b, t, i);
        OtherIsRenamed(mem, s, a, b, t, i);
      }
    }
    RenamedRep(mem, m, s, 0, 0, a, b, t);
    IdsPositive(s, b);
    RenamedShape(s, a, b, t);
  }

  lemma IdsPositive(s: Shape, i: int)
    requires Apart(s) && i in Ids(s)
    ensures i > 0
    decreases s
  {
    if i in Ids(s.left) {
      IdsPositive(s.left, i);
    } else if i in Ids(s.right) {
      IdsPositive(s.right, i);
    }
  }

  lemma {:induction false} OwnIsRenamed(mem: Memory, s: Shape, a: int, b: int, t: int)
    requires a in mem && b in mem && MayExchange(mem, s, a, b, t) && Spread(mem, a, b, t)
    ensures (if mem[b].parent == a then WithKid(mem[a], mem[b].side, t) else mem[a]) == RenLinks(mem[a], a, b, t)
    ensures mem[b].(parent := if mem[b].parent == a then b else mem[b].parent) == RenLinks(mem[b], a, b, t)
  {
    hide Rank, Height, Ids;
    assert Agrees(mem, s, a) && Agrees(mem, s, b);
    assert KidAgrees(mem, s, b, 0) && KidAgrees(mem, s, b, 1);
  }

  // -------------------------------------------------------- ranks along a path

  lemma {:induction false} RankBound(s: Shape, i: int)
    ensures Rank(s, i) <= Height(s)
    decreases s
  {
    if s.Fork? {
      RankBound(s.left, i);
      RankBound(s.right, i);
    }
  }

  lemma {:induction false} RankPlugged(p: Path, s: Shape, i: int)
    requires ApartPath(p) && Apart(s) && PathIds(p) !! Ids(s) && i in Ids(s)
    ensures Rank(Plug(p, s), i) == Rank(s, i)
    decreases p
  {
    if p.Step? {
      var t := Mk(p.id, p.dir, s, p.sib);
      MkIds(p.id, p.dir, s, p.sib);
      RankPlugged(p.up, t, i);
      assert Rank(t, i) == Rank(s, i);
    }
  }

  /** Node a with two kids and b, the nearest node on side c below it, may be exchanged. */
  lemma {:induction false} MayBeExchanged(mem: Memory, p: Path, a: int, c: int, x: Shape, y: Shape, g: Shape, t: int)
    requires ApartPath(p) && 0 <= c <= 1 && Apart(Mk(a, c, x, y)) && PathIds(p) !! Ids(Mk(a, c, x, y))
    requires var s := Plug(p, Mk(a, c, x, y)); Rep(mem, s, 0, 0) && Balanced(s) && t !in Ids(s) && t > 0
    requires x.Fork? && y.Fork? && g.Fork? && g.id in Ids(x) && Kid(g, 1 - c).Leaf? && Balanced(g)
    requires g.id in mem && mem[g.id].kid0 == Top(g.left) && mem[g.id].kid1 == Top(g.right) && mem[g.id].bal == Tilt(g)
    ensures a in mem && MayExchange(mem, Plug(p, Mk(a, c, x, y)), a, g.id, t)
  {
    hide Rep, RepPath, Balanced, Plug, Rank, Agrees, Mk;
    var f := Mk(a, c, x, y);
    var s := Plug(p, f);
    MkIds(a, c, x, y);
    PlugApart(p, f);
    PlugIds(p, f);
    PlugRep(mem, Top(s), p, f);
    RepMk(mem, a, c, x, y, Holder(p), Side(p));
    forall i: int | i in Ids(s) ensures Agrees(mem, s, i) {
      LinksAgree(mem, s, 0, 0, i);
    }
    TopIsIn(s);
    TopIsIn(x);
    TopIsIn(y);
    OneKidLeans(g, c);
    BelowRanks(mem, p, a, c, x, y, g.id);
    RootInMemory(mem, s);
  }

  lemma {:induction false} RootInMemory(mem: Memory, s: Shape)
    requires Rep(mem, s, 0, 0) && s.Fork?
    ensures s.id in mem && mem[s.id].parent == 0
  {
  }

  lemma OneKidLeans(g: Shape, c: int)
    requires g.Fork? && 0 <= c <= 1 && Kid(g, 1 - c).Leaf?
    ensures Top(g.left) != 0 && g.left.Fork? ==> Tilt(g) < 0
    ensures Top(g.right) != 0 && g.right.Fork? ==> Tilt(g) > 0
    ensures g.left.Leaf? || g.right.Leaf?
  {
  }

  lemma {:induction false} BelowRanks(mem: Memory, p: Path, a: int, c: int, x: Shape, y: Shape, b: int)
    requires ApartPath(p) && 0 <= c <= 1 && Apart(Mk(a, c, x, y)) && PathIds(p) !! Ids(Mk(a, c, x, y))
    requires Rep(mem, x, a, c) && b in Ids(x) && b in mem
    ensures var s := Plug(p, Mk(a, c, x, y));
            && Rank(s, b) < Rank(s, a) && b != Top(s) && b != a
            && (mem[b].parent == a || Rank(s, mem[b].parent) < Rank(s, a))
  {
    hide Rep, RepPath, Plug, Mk, Height, KidAgrees;
    var f := Mk(a, c, x, y);
    MkIds(a, c, x, y);
    MkFacts(a, c, x, y);
    RankPlugged(p, f, a);
    RankPlugged(p, f, b);
    RankKids(f);
    RankBound(x, b);
    LinksAgree(mem, x, a, c, b);
    TopNotBelow(p, f, b);
    HangsOn(mem, x, a, c);
    if b != Top(x) {
      RankBound(x, mem[b].parent);
      RankPlugged(p, f, mem[b].parent);
    }
  }

  lemma {:induction false} TopNotBelow(p: Path, f: Shape, b: int)
    requires ApartPath(p) && Apart(f) && f.Fork? && PathIds(p) !! Ids(f) && b in Ids(f) && b != f.id
    ensures b != Top(Plug(p, f))
    decreases p
  {
    if p.Step? {
      MkIds(p.id, p.dir, f, p.sib);
      TopNotBelow(p.up, Mk(p.id, p.dir, f, p.sib), b);
    }
  }

  lemma {:induction false} HangsOn(mem: Memory, s: Shape, parent: int, side: int)
    requires Rep(mem, s, parent, side) && s.Fork?
    ensures s.id in mem && mem[s.id].parent == parent
  {
  }
}
