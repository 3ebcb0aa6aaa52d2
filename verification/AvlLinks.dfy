/**
  * AVL trees in memory: each node has child, parent, side and balance fields, and the
  * fields represent a shape.  A tree under repair is a subtree with a path above it;
  * the balances along the path are those for a recorded height of the subtree.
  */
module AvlLinks {
  import opened AvlShape

  datatype Links = Links(kid0: int, kid1: int, parent: int, side: int, bal: int)

  type Memory = map<int, Links>

  function KidOf(c: Links, d: int): int {
    if d == 0 then c.kid0 else c.kid1
  }

  function WithKid(c: Links, d: int, x: int): Links {
    if d == 0 then c.(kid0 := x) else c.(kid1 := x)
  }

  /** Memory holds shape s, whose top hangs on the given side of the given parent (0: it is the root). */
  predicate Rep(mem: Memory, s: Shape, parent: int, side: int) {
    s.Leaf? ||
    (&& s.id in mem
     && mem[s.id].kid0 == Top(s.left) && mem[s.id].kid1 == Top(s.right)
     && mem[s.id].parent == parent && (parent != 0 ==> mem[s.id].side == side)
     && mem[s.id].bal == Tilt(s)
     && Rep(mem, s.left, s.id, 0) && Rep(mem, s.right, s.id, 1))
  }

  /** Memory holds the path above a subtree with the given top, balanced for height h. */
  predicate RepPath(mem: Memory, root: int, p: Path, top: int, h: nat) {
    match p
    case Root => root == top
    case Step(id, dir, sib, up) =>
      && id in mem
      && KidOf(mem[id], dir) == top && KidOf(mem[id], 1 - dir) == Top(sib)
      && mem[id].parent == Holder(up) && (up.Step? ==> mem[id].side == up.dir)
      && mem[id].bal == Lean(dir, h, Height(sib))
      && Rep(mem, sib, id, 1 - dir)
      && RepPath(mem, root, up, id, Raised(h, sib))
  }

  lemma {:induction false} RepMk(mem: Memory, id: int, d: int, a: Shape, b: Shape, parent: int, side: int)
    requires 0 <= d <= 1
    ensures Rep(mem, Mk(id, d, a, b), parent, side) <==>
            && id in mem
            && KidOf(mem[id], d) == Top(a) && KidOf(mem[id], 1 - d) == Top(b)
            && mem[id].parent == parent && (parent != 0 ==> mem[id].side == side)
            && mem[id].bal == Lean(d, Height(a), Height(b))
            && Rep(mem, a, id, d) && Rep(mem, b, id, 1 - d)
  {
  }

  // ------------------------------------------------------------------ framing

  ghost predicate SameOn(mem: Memory, mem': Memory, ids: set<int>) {
    forall x: int :: x in ids && x in mem ==> x in mem' && mem'[x] == mem[x]
  }

  lemma {:induction false} RepFrame(mem: Memory, mem': Memory, s: Shape, parent: int, side: int)
    requires Rep(mem, s, parent, side) && SameOn(mem, mem', Ids(s))
    ensures Rep(mem', s, parent, side)
    decreases s
  {
    if s.Fork? {
      RepFrame(mem, mem', s.left, s.id, 0);
      RepFrame(mem, mem', s.right, s.id, 1);
    }
  }

  /** Hanging a subtree elsewhere changes two fields of its top and nothing else. */
  lemma {:induction false} RepMoved(mem: Memory, mem': Memory, s: Shape, parent: int, side: int, parent': int,
                                    side': int)
    requires Rep(mem, s, parent, side) && Apart(s) && SameOn(mem, mem', Ids(s) - {Top(s)})
    requires s.Fork? ==> s.id in mem' && mem'[s.id] == mem[s.id].(parent := parent', side := side')
    ensures Rep(mem', s, parent', side')
  {
    if s.Fork? {
      RepFrame(mem, mem', s.left, s.id, 0);
      RepFrame(mem, mem', s.right, s.id, 1);
    }
  }

  lemma {:induction false} PathFrame(mem: Memory, mem': Memory, root: int, p: Path, top: int, h: nat)
    requires RepPath(mem, root, p, top, h) && SameOn(mem, mem', PathIds(p))
    ensures RepPath(mem', root, p, top, h)
    decreases p
  {
    if p.Step? {
      RepFrame(mem, mem', p.sib, p.id, 1 - p.dir);
      PathFrame(mem, mem', root, p.up, p.id, Raised(h, p.sib));
    }
  }

  /** A new top under the same path: only the link to it changes. */
  lemma {:induction false} PathRetopped(mem: Memory, mem': Memory, root: int, root': int, p: Path, top: int, top': int,
                                        h: nat)
    requires RepPath(mem, root, p, top, h) && ApartPath(p) && SameOn(mem, mem', PathIds(p) - {Holder(p)})
    requires p.Step? ==> p.id in mem' && mem'[p.id] == WithKid(mem[p.id], p.dir, top')
    requires root' == if p.Root? then top' else root
    ensures RepPath(mem', root', p, top', h)
  {
    if p.Step? {
      RepFrame(mem, mem', p.sib, p.id, 1 - p.dir);
      PathFrame(mem, mem', root, p.up, p.id, Raised(h, p.sib));
    }
  }

  /** A subtree and the path above it, at the height the path records, are one tree. */
  lemma {:induction false} PlugRep(mem: Memory, root: int, p: Path, s: Shape)
    requires ApartPath(p) && (s.Fork? ==> s.id > 0)
    ensures Rep(mem, s, Holder(p), Side(p)) && RepPath(mem, root, p, Top(s), Height(s)) <==>
            Rep(mem, Plug(p, s), 0, 0) && root == Top(Plug(p, s))
    decreases p
  {
    hide Rep, Mk, Height;
    if p.Step? {
      var t := Mk(p.id, p.dir, s, p.sib);
      RepMk(mem, p.id, p.dir, s, p.sib, Holder(p.up), Side(p.up));
      MkFacts(p.id, p.dir, s, p.sib);
      PlugRep(mem, root, p.up, t);
    }
  }

  // ---------------------------------------------------------------- rotations

  /** Node n hangs under the path and has kids x on side d and y; its balance field says nothing. */
  ghost predicate Hangs(mem: Memory, p: Path, n: int, d: int, x: Shape, y: Shape) {
    && n in mem && KidOf(mem[n], d) == Top(x) && KidOf(mem[n], 1 - d) == Top(y)
    && mem[n].parent == Holder(p) && (p.Step? ==> mem[n].side == p.dir)
    && Rep(mem, x, n, d) && Rep(mem, y, n, 1 - d)
  }

  ghost predicate Separate(p: Path, n: int, d: int, x: Shape, y: Shape) {
    && 0 <= d <= 1
    && ApartPath(p) && Apart(Mk(n, d, x, y)) && PathIds(p) !! Ids(Mk(n, d, x, y))
  }

  ghost predicate ChangedOnly(mem: Memory, mem': Memory, ids: set<int>) {
    forall i: int :: i in mem ==> i in mem' && (i in ids || mem'[i] == mem[i])
  }

  /** The cells a single rotation leaves; c is the heavy kid, with parts a and b. */
  ghost predicate SingleCells(mem: Memory, mem': Memory, p: Path, n: int, d: int, c: int, a: Shape, b: Shape,
                              y: Shape) {
    && n in mem && n in mem' && c in mem'
    && KidOf(mem'[n], d) == Top(b) && KidOf(mem'[n], 1 - d) == Top(y) && mem'[n].parent == c && mem'[n].side == 1 - d
    && KidOf(mem'[c], d) == Top(a) && KidOf(mem'[c], 1 - d) == n && mem'[c].parent == Holder(p)
    && mem'[c].side == mem[n].side
    && mem'[n].bal == Lean(d, Height(b), Height(y))
    && mem'[c].bal == Lean(d, Height(a), 1 + Max(Height(b), Height(y)))
    && (b.Fork? ==> b.id in mem && b.id in mem' && mem'[b.id] == mem[b.id].(parent := n, side := d))
    && (p.Step? ==> p.id in mem && p.id in mem' && mem'[p.id] == WithKid(mem[p.id], p.dir, c))
    && ChangedOnly(mem, mem', {n, c, Top(b), Holder(p)})
  }

  // The field updates of a single rotation: b is the middle subtree's top, bal the kid's new balance.
  function SingleMem(mem: Memory, n: int, d: int, c: int, b: int, parent: int, which: int, bal: int): Memory
    requires n in mem && c in mem && (b != 0 ==> b in mem) && (parent != 0 ==> parent in mem)
  {
    var m1 := mem[n := WithKid(mem[n], d, b).(parent := c, side := 1 - d, bal := -bal)];
    var m2 := if b != 0 then m1[b := m1[b].(parent := n, side := d)] else m1;
    var m3 := m2[c := WithKid(m2[c], 1 - d, n).(parent := parent, side := which, bal := bal)];
    if parent != 0 then m3[parent := WithKid(m3[parent], which, c)] else m3
  }

  lemma {:induction false} SingleMade(mem: Memory, p: Path, n: int, d: int, c: int, a: Shape, b: Shape, y: Shape,
                                      bal: int)
    requires 0 <= d <= 1 && n in mem && c in mem && (b.Fork? ==> b.id in mem && b.id > 0)
      && (p.Step? ==> p.id in mem && p.id > 0)
    requires KidOf(mem[n], 1 - d) == Top(y) && KidOf(mem[c], d) == Top(a)
    requires n != c && Top(b) != n && Top(b) != c && Holder(p) != n && Holder(p) != c && (b.Fork? ==> b.id != Holder(p))
    requires p.Step? ==> mem[n].side == p.dir && 0 <= p.dir <= 1
    requires -bal == Lean(d, Height(b), Height(y)) && bal == Lean(d, Height(a), 1 + Max(Height(b), Height(y)))
    ensures SingleCells(mem, SingleMem(mem, n, d, c, Top(b), Holder(p), mem[n].side, bal), p, n, d, c, a, b, y)
  {
    hide Height, Lean, Max;
  }

  lemma {:induction false} SingleRotation(mem: Memory, mem': Memory, root: int, root': int, p: Path, n: int, d: int,
                                          c: int,
                       a: Shape, b: Shape, y: Shape, h: nat)
    requires Separate(p, n, d, Mk(c, d, a, b), y)
    requires Hangs(mem, p, n, d, Mk(c, d, a, b), y) && RepPath(mem, root, p, n, h)
    requires SingleCells(mem, mem', p, n, d, c, a, b, y) && root' == if p.Root? then c else root
    ensures Rep(mem', Mk(c, d, a, Mk(n, d, b, y)), Holder(p), Side(p))
    ensures RepPath(mem', root', p, c, h)
  {
    hide Mk, Rep, RepPath, Height, Apart, Ids;
    var x := Mk(c, d, a, b);
    MkIds(c, d, a, b);
    MkIds(n, d, x, y);
    RepMk(mem, c, d, a, b, n, d);
    HolderIsIn(p);
    TopIsIn(a);
    TopIsIn(b);
    TopIsIn(y);
    RepFrame(mem, mem', a, c, d);
    RepMoved(mem, mem', b, c, 1 - d, n, d);
    RepFrame(mem, mem', y, n, 1 - d);
    RepMk(mem', n, d, b, y, c, 1 - d);
    MkFacts(n, d, b, y);
    RepMk(mem', c, d, a, Mk(n, d, b, y), Holder(p), Side(p));
    PathRetopped(mem, mem', root, root', p, n, c, h);
  }

  /** The cells a double rotation leaves; g is the kid of c that comes to the top, with parts b and f. */
  ghost predicate DoubleCells(mem: Memory, mem': Memory, p: Path, n: int, d: int, c: int, g: int,
                              a: Shape, b: Shape, f: Shape, y: Shape)
  {
    && n in mem && n in mem' && c in mem' && g in mem'
    && KidOf(mem'[n], d) == Top(f) && KidOf(mem'[n], 1 - d) == Top(y) && mem'[n].parent == g && mem'[n].side == 1 - d
    && KidOf(mem'[c], d) == Top(a) && KidOf(mem'[c], 1 - d) == Top(b) && mem'[c].parent == g && mem'[c].side == d
    && KidOf(mem'[g], d) == c && KidOf(mem'[g], 1 - d) == n && mem'[g].parent == Holder(p)
    && mem'[g].side == mem[n].side
    && mem'[n].bal == Lean(d, Height(f), Height(y))
    && mem'[c].bal == Lean(d, Height(a), Height(b))
    && mem'[g].bal == Lean(d, Max(Height(a), Height(b)), Max(Height(f), Height(y)))
    && (b.Fork? ==> b.id in mem && b.id in mem' && mem'[b.id] == mem[b.id].(parent := c, side := 1 - d))
    && (f.Fork? ==> f.id in mem && f.id in mem' && mem'[f.id] == mem[f.id].(parent := n, side := d))
    && (p.Step? ==> p.id in mem && p.id in mem' && mem'[p.id] == WithKid(mem[p.id], p.dir, g))
    && ChangedOnly(mem, mem', {n, c, g, Top(b), Top(f), Holder(p)})
  }

  // The field updates of a double rotation; nb and cb are the new balances of n and c.
  function DoubleMem(mem: Memory, n: int, d: int, c: int, g: int, b: int, f: int, parent: int, which: int,
                     nb: int, cb: int): Memory
    requires n in mem && c in mem && g in mem && (b != 0 ==> b in mem) && (f != 0 ==> f in mem)
    requires parent != 0 ==> parent in mem
  {
    var m1 := mem[n := WithKid(mem[n], d, f).(parent := g, side := 1 - d, bal := nb)];
    var m2 := if f != 0 then m1[f := m1[f].(parent := n, side := d)] else m1;
    var m3 := m2[c := WithKid(m2[c], 1 - d, b).(parent := g, side := d, bal := cb)];
    var m4 := if b != 0 then m3[b := m3[b].(parent := c, side := 1 - d)] else m3;
    var m5 := m4[g := WithKid(WithKid(m4[g], d, c), 1 - d, n).(parent := parent, side := which, bal := 0)];
    if parent != 0 then m5[parent := WithKid(m5[parent], which, g)] else m5
  }

  ghost predicate Known(mem: Memory, s: Shape, others: set<int>) {
    s.Fork? ==> s.id in mem && s.id > 0 && s.id !in others
  }

  lemma DoubleOnly(mem: Memory, n: int, d: int, c: int, g: int, b: int, f: int, parent: int, which: int, nb: int,
                   cb: int)
    requires n in mem && c in mem && g in mem && (b != 0 ==> b in mem) && (f != 0 ==> f in mem)
    requires parent != 0 ==> parent in mem
    ensures ChangedOnly(mem, DoubleMem(mem, n, d, c, g, b, f, parent, which, nb, cb), {n, c, g, b, f, parent})
  {
    hide KidOf, WithKid;
  }

  lemma DoubleValues(mem: Memory, n: int, d: int, c: int, g: int, b: int, f: int, parent: int, which: int, nb: int,
                     cb: int)
    requires n in mem && c in mem && g in mem && (b != 0 ==> b in mem) && (f != 0 ==> f in mem)
    requires parent != 0 ==> parent in mem
    requires n != c && n != g && c != g && parent !in {n, c, g} && 0 !in {n, c, g}
    requires b !in {n, c, g} && f !in {n, c, g} && (b != 0 ==> b != f && b != parent) && (f != 0 ==> f != parent)
    ensures var m := DoubleMem(mem, n, d, c, g, b, f, parent, which, nb, cb);
            && n in m && m[n] == WithKid(mem[n], d, f).(parent := g, side := 1 - d, bal := nb)
            && c in m && m[c] == WithKid(mem[c], 1 - d, b).(parent := g, side := d, bal := cb)
            && g in m && m[g] == WithKid(WithKid(mem[g], d, c), 1 - d, n).(parent := parent, side := which, bal := 0)
            && (b != 0 ==> b in m && m[b] == mem[b].(parent := c, side := 1 - d))
            && (f != 0 ==> f in m && m[f] == mem[f].(parent := n, side := d))
            && (parent != 0 ==> parent in m && m[parent] == WithKid(mem[parent], which, g))
  {
    hide KidOf, WithKid;
  }

  lemma LeanLevel(d: int, h: int)
    ensures Lean(d, h, h) == 0
  {
  }

  lemma {:induction false} DoubleMade(mem: Memory, p: Path, n: int, d: int, c: int, g: int, a: Shape, b: Shape,
                                      f: Shape, y: Shape,
                   nb: int, cb: int)
    requires 0 <= d <= 1 && n in mem && c in mem && g in mem && (p.Step? ==> p.id in mem && p.id > 0)
    requires KidOf(mem[n], 1 - d) == Top(y) && KidOf(mem[c], d) == Top(a)
    requires n != c && n != g && c != g && Holder(p) !in {n, c, g} && n > 0 && c > 0 && g > 0
    requires Known(mem, b, {n, c, g, Holder(p), Top(f)}) && Known(mem, f, {n, c, g, Holder(p), Top(b)})
    requires p.Step? ==> mem[n].side == p.dir && 0 <= p.dir <= 1
    requires nb == Lean(d, Height(f), Height(y)) && cb == Lean(d, Height(a), Height(b))
    requires Max(Height(a), Height(b)) == Max(Height(f), Height(y))
    ensures DoubleCells(mem, DoubleMem(mem, n, d, c, g, Top(b), Top(f), Holder(p), mem[n].side, nb, cb),
                        p, n, d, c, g, a, b, f, y)
  {
    hide Height, Max, Lean, ChangedOnly, DoubleMem;
    LeanLevel(d, Max(Height(a), Height(b)));
    DoubleValues(mem, n, d, c, g, Top(b), Top(f), Holder(p), mem[n].side, nb, cb);
    DoubleOnly(mem, n, d, c, g, Top(b), Top(f), Holder(p), mem[n].side, nb, cb);
  }

  lemma {:induction false} SameApart(mem: Memory, mem': Memory, changed: set<int>, ids: set<int>)
    requires ChangedOnly(mem, mem', changed) && ids !! changed
    ensures SameOn(mem, mem', ids)
  {
  }

  /** The parts of the heavy kid are disjoint. */
  lemma {:induction false} InnerApart(d: int, c: int, g: int, a: Shape, b: Shape, f: Shape)
    requires 0 <= d <= 1 && Apart(Mk(c, d, a, Mk(g, d, b, f)))
    ensures var x := Ids(Mk(c, d, a, Mk(g, d, b, f)));
            c in x && g in x && Ids(a) <= x && Ids(b) <= x && Ids(f) <= x
    ensures c !in Ids(a) && c !in Ids(b) && c !in Ids(f) && g !in Ids(a) && g !in Ids(b) && g !in Ids(f)
    ensures Ids(a) !! Ids(b) && Ids(a) !! Ids(f) && Ids(b) !! Ids(f) && c != g && c > 0 && g > 0
    ensures Apart(a) && Apart(b) && Apart(f)
  {
    hide Mk, Apart, Ids;
    MkIds(g, d, b, f);
    MkIds(c, d, a, Mk(g, d, b, f));
  }

  lemma {:induction false} OuterApart(p: Path, n: int, d: int, x: Shape, y: Shape)
    requires Separate(p, n, d, x, y)
    ensures 0 <= d <= 1 && n > 0 && n !in Ids(x) && n !in Ids(y) && n !in PathIds(p)
    ensures Ids(x) !! Ids(y) && PathIds(p) !! Ids(x) && PathIds(p) !! Ids(y)
    ensures Apart(x) && Apart(y) && ApartPath(p)
  {
    hide Mk, Apart, Ids, PathIds, ApartPath;
    MkIds(n, d, x, y);
  }

  lemma {:induction false} DoubleFrames(mem: Memory, mem': Memory, p: Path, n: int, d: int, c: int, g: int,
                     a: Shape, b: Shape, f: Shape, y: Shape)
    requires Separate(p, n, d, Mk(c, d, a, Mk(g, d, b, f)), y)
    requires ChangedOnly(mem, mem', {n, c, g, Top(b), Top(f), Holder(p)})
    ensures SameOn(mem, mem', Ids(a)) && SameOn(mem, mem', Ids(y))
    ensures SameOn(mem, mem', Ids(b) - {Top(b)}) && SameOn(mem, mem', Ids(f) - {Top(f)})
    ensures SameOn(mem, mem', PathIds(p) - {Holder(p)})
    ensures Apart(b) && Apart(f)
  {
    hide Mk, Apart, Ids, PathIds, ApartPath, ChangedOnly, SameOn, Separate, Top;
    OuterApart(p, n, d, Mk(c, d, a, Mk(g, d, b, f)), y);
    InnerApart(d, c, g, a, b, f);
    HolderIsIn(p);
    TopIsIn(a);
    TopIsIn(b);
    TopIsIn(f);
    TopIsIn(y);
    var changed := {n, c, g, Top(b), Top(f), Holder(p)};
    SameApart(mem, mem', changed, Ids(a));
    SameApart(mem, mem', changed, Ids(y));
    SameApart(mem, mem', changed, Ids(b) - {Top(b)});
    SameApart(mem, mem', changed, Ids(f) - {Top(f)});
    SameApart(mem, mem', changed, PathIds(p) - {Holder(p)});
  }

  lemma {:induction false} DoubleRotation(mem: Memory, mem': Memory, root: int, root': int, p: Path, n: int, d: int,
                                          c: int, g: int,
                       a: Shape, b: Shape, f: Shape, y: Shape, h: nat)
    requires Separate(p, n, d, Mk(c, d, a, Mk(g, d, b, f)), y)
    requires Hangs(mem, p, n, d, Mk(c, d, a, Mk(g, d, b, f)), y) && RepPath(mem, root, p, n, h)
    requires DoubleCells(mem, mem', p, n, d, c, g, a, b, f, y) && root' == if p.Root? then g else root
    ensures Rep(mem', Mk(g, d, Mk(c, d, a, b), Mk(n, d, f, y)), Holder(p), Side(p))
    ensures RepPath(mem', root', p, g, h)
  {
    hide Mk, Rep, RepPath, Height, Apart, Ids, ApartPath, PathIds;
    var z := Mk(g, d, b, f);
    RepMk(mem, c, d, a, z, n, d);
    RepMk(mem, g, d, b, f, c, 1 - d);
    DoubleFrames(mem, mem', p, n, d, c, g, a, b, f, y);
    RepFrame(mem, mem', a, c, d);
    RepMoved(mem, mem', b, g, d, c, 1 - d);
    RepMoved(mem, mem', f, g, 1 - d, n, d);
    RepFrame(mem, mem', y, n, 1 - d);
    RepMk(mem', c, d, a, b, g, d);
    RepMk(mem', n, d, f, y, g, 1 - d);
    MkFacts(c, d, a, b);
    MkFacts(n, d, f, y);
    RepMk(mem', g, d, Mk(c, d, a, b), Mk(n, d, f, y), Holder(p), Side(p));
    PathRetopped(mem, mem', root, root', p, n, g, h);
  }

  lemma TopIsIn(s: Shape)
    ensures s.Fork? ==> Top(s) in Ids(s) && Top(s) == s.id
    ensures s.Leaf? ==> Top(s) == 0
    ensures Apart(s) ==> 0 !in Ids(s) && Top(s) >= 0
  {
    if Apart(s) && s.Fork? {
      TopIsIn(s.left);
      TopIsIn(s.right);
    }
  }

  lemma {:induction false} HolderIsIn(p: Path)
    ensures if p.Step? then Holder(p) in PathIds(p) else Holder(p) == 0
    ensures ApartPath(p) ==> 0 !in PathIds(p)
    decreases p
  {
    if ApartPath(p) && p.Step? {
      TopIsIn(p.sib);
      HolderIsIn(p.up);
    }
  }

  // --------------------------------------------------------------- rebalancing

  /** A balanced subtree under a path whose balances are those for height h of it. */
  ghost predicate Held(mem: Memory, root: int, p: Path, s: Shape, h: nat) {
    && ApartPath(p) && Apart(s) && PathIds(p) !! Ids(s)
    && Rep(mem, s, Holder(p), Side(p)) && RepPath(mem, root, p, Top(s), h)
    && Balanced(s) && BalancedPath(p, h)
  }

  /** Held at its own height, the subtree and the path make a balanced tree. */
  lemma {:induction false} HeldIsTree(mem: Memory, root: int, p: Path, s: Shape)
    requires ApartPath(p) && Apart(s) && PathIds(p) !! Ids(s)
    ensures Held(mem, root, p, s, Height(s)) <==>
            Rep(mem, Plug(p, s), 0, 0) && root == Top(Plug(p, s)) && Balanced(Plug(p, s))
    ensures Apart(Plug(p, s))
  {
    hide Rep, RepPath, Plug;
    PlugRep(mem, root, p, s);
    PlugBalanced(p, s);
    PlugApart(p, s);
  }

  /** With the right balance written at the foot of the path, the held subtree is one node larger. */
  lemma {:induction false} HeldHigher(mem: Memory, mem': Memory, root: int, p: Path, s: Shape, h: nat)
    requires Held(mem, root, p, s, h) && p.Step? && -1 <= Height(s) - Height(p.sib) <= 1 && p.id in mem
    requires mem' == mem[p.id := mem[p.id].(bal := Lean(p.dir, Height(s), Height(p.sib)))]
    ensures Held(mem', root, p.up, Mk(p.id, p.dir, s, p.sib), Raised(h, p.sib))
  {
    hide Mk, Height, Balanced, Rep, Apart, Ids;
    var t := Mk(p.id, p.dir, s, p.sib);
    MkFacts(p.id, p.dir, s, p.sib);
    MkIds(p.id, p.dir, s, p.sib);
    RepFrame(mem, mem', s, p.id, p.dir);
    RepFrame(mem, mem', p.sib, p.id, 1 - p.dir);
    PathFrame(mem, mem', root, p.up, p.id, Raised(h, p.sib));
    RepMk(mem', p.id, p.dir, s, p.sib, Holder(p.up), Side(p.up));
  }

  /** What a rotation at the foot of the path needs, the held subtree on side p.dir. */
  lemma {:induction false} HeldHangs(mem: Memory, root: int, p: Path, s: Shape, h: nat)
    requires Held(mem, root, p, s, h) && p.Step?
    ensures p.id in mem && mem[p.id].bal == Lean(p.dir, h, Height(p.sib)) && -1 <= h - Height(p.sib) <= 1
    ensures mem[p.id].parent == Holder(p.up) && (p.up.Step? ==> mem[p.id].side == p.up.dir)
    ensures 0 <= p.dir <= 1 && p.id > 0 && Balanced(p.sib) && Balanced(s)
    ensures Hangs(mem, p.up, p.id, p.dir, s, p.sib) && Hangs(mem, p.up, p.id, 1 - p.dir, p.sib, s)
    ensures Separate(p.up, p.id, p.dir, s, p.sib) && Separate(p.up, p.id, 1 - p.dir, p.sib, s)
    ensures RepPath(mem, root, p.up, p.id, Raised(h, p.sib)) && BalancedPath(p.up, Raised(h, p.sib))
  {
    hide Height, Balanced, Rep, Apart, Ids, Mk;
    MkIds(p.id, p.dir, s, p.sib);
    MkFlip(p.id, p.dir, s, p.sib);
  }

  lemma {:induction false} MkFlip(id: int, d: int, a: Shape, b: Shape)
    requires 0 <= d <= 1
    ensures Mk(id, d, a, b) == Mk(id, 1 - d, b, a)
  {
  }

  /** After a rotation the rotated subtree is held one step up. */
  lemma {:induction false} RotatedHeld(mem: Memory, root: int, p: Path, n: int, d: int, x: Shape, y: Shape, h: nat)
    requires x.Fork? && Separate(p, n, d, x, y) && BalancedPath(p, h)
    requires Rep(mem, Rotated(n, d, x, y), Holder(p), Side(p)) && Balanced(Rotated(n, d, x, y))
    requires RepPath(mem, root, p, Top(Rotated(n, d, x, y)), h)
    ensures Held(mem, root, p, Rotated(n, d, x, y), h)
  {
    hide Rep, RepPath, Rotated, Balanced, Apart, Ids;
    RotatedIds(n, d, x, y);
  }
}
