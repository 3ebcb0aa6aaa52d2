/**
  * Shapes of AVL trees: height, order, rotation, and paths from a subtree to the root.
  *
  * Everything is said for a direction d, 0 for left and 1 for right, as pfs_avl.cc
  * does: Kid(s, d) is the subtree on side d, and Line(s, d) lists the nodes in the
  * direction d, so Line(s, 1) is the in-order sequence and Line(s, 0) its reverse.
  */
module AvlShape {
  datatype Shape = Leaf | Fork(id: int, left: Shape, right: Shape)

  function Kid(s: Shape, d: int): Shape
    requires s.Fork?
  {
    if d == 0 then s.left else s.right
  }

  // The fork with a on side d and b on the other side.
  function Mk(id: int, d: int, a: Shape, b: Shape): (s: Shape)
    ensures s.Fork? && s.id == id
  {
    if d == 0 then Fork(id, a, b) else Fork(id, b, a)
  }

  function Top(s: Shape): int {
    if s.Leaf? then 0 else s.id
  }

  function Max(a: nat, b: nat): nat {
    if a < b then b else a
  }

  function Height(s: Shape): nat {
    if s.Leaf? then 0 else 1 + Max(Height(s.left), Height(s.right))
  }

  function Size(s: Shape): nat {
    if s.Leaf? then 0 else 1 + Size(s.left) + Size(s.right)
  }

  function Tilt(s: Shape): int {
    if s.Leaf? then 0 else Height(s.right) - Height(s.left)
  }

  predicate Balanced(s: Shape) {
    s.Leaf? || (-1 <= Tilt(s) <= 1 && Balanced(s.left) && Balanced(s.right))
  }

  function Line(s: Shape, d: int): seq<int> {
    if s.Leaf? then [] else Line(Kid(s, 1 - d), d) + [s.id] + Line(Kid(s, d), d)
  }

  function Ids(s: Shape): set<int> {
    if s.Leaf? then {} else Ids(s.left) + {s.id} + Ids(s.right)
  }

  /** No node twice, and none is the null pointer. */
  predicate Apart(s: Shape) {
    s.Leaf? ||
    (s.id > 0 && s.id !in Ids(s.left) && s.id !in Ids(s.right) && Ids(s.left) !! Ids(s.right)
     && Apart(s.left) && Apart(s.right))
  }

  // +1 for the right side, -1 for the left: child2balance.
  function Sign(d: int): int {
    if d == 0 then -1 else 1
  }

  // The balance of a node whose subtree on side d has height a and whose other one has height b.
  function Lean(d: int, a: int, b: int): int {
    if d == 0 then b - a else a - b
  }

  lemma {:induction false} MkFacts(id: int, d: int, a: Shape, b: Shape)
    requires 0 <= d <= 1
    ensures var s := Mk(id, d, a, b);
            && Kid(s, d) == a && Kid(s, 1 - d) == b
            && Height(s) == 1 + Max(Height(a), Height(b))
            && Tilt(s) == Lean(d, Height(a), Height(b))
            && (Balanced(s) <==> -1 <= Height(a) - Height(b) <= 1 && Balanced(a) && Balanced(b))
  {
    var s := Mk(id, d, a, b);
    assert (d == 0 && s.left == a && s.right == b) || (d == 1 && s.left == b && s.right == a);
    assert Balanced(s) <==> -1 <= Tilt(s) <= 1 && Balanced(s.left) && Balanced(s.right);
    assert Height(s) == 1 + Max(Height(s.left), Height(s.right));
  }

  lemma {:induction false} MkIds(id: int, d: int, a: Shape, b: Shape)
    requires 0 <= d <= 1
    ensures var s := Mk(id, d, a, b);
            && Size(s) == 1 + Size(a) + Size(b)
            && Ids(s) == Ids(a) + {id} + Ids(b)
            && (Apart(s) <==> id > 0 && id !in Ids(a) && id !in Ids(b) && Ids(a) !! Ids(b) && Apart(a) && Apart(b))
  {
  }

  lemma {:induction false} MkLine(id: int, d: int, a: Shape, b: Shape, e: int)
    requires 0 <= d <= 1 && 0 <= e <= 1
    ensures Line(Mk(id, d, a, b), e) ==
            (if e == d then Line(b, e) + [id] + Line(a, e) else Line(a, e) + [id] + Line(b, e))
  {
  }

  lemma MkAgain(s: Shape, d: int)
    requires s.Fork? && 0 <= d <= 1
    ensures s == Mk(s.id, d, Kid(s, d), Kid(s, 1 - d))
  {
  }

  // ------------------------------------------------------------------- paths

  /** From a subtree up to the root: the subtree is the kid on side dir of node id. */
  datatype Path = Root | Step(id: int, dir: int, sib: Shape, up: Path)

  function Plug(p: Path, s: Shape): Shape {
    if p.Root? then s else Plug(p.up, Mk(p.id, p.dir, s, p.sib))
  }

  function Holder(p: Path): int {
    if p.Root? then 0 else p.id
  }

  function Side(p: Path): int {
    if p.Root? then 0 else p.dir
  }

  function PathIds(p: Path): set<int> {
    if p.Root? then {} else {p.id} + Ids(p.sib) + PathIds(p.up)
  }

  predicate ApartPath(p: Path) {
    p.Root? ||
    (p.id > 0 && 0 <= p.dir <= 1 && p.id !in Ids(p.sib) && p.id !in PathIds(p.up)
     && Ids(p.sib) !! PathIds(p.up) && Apart(p.sib) && ApartPath(p.up))
  }

  // The nodes beyond the subtree in direction d, nearest first.
  function Beyond(p: Path, d: int): seq<int> {
    if p.Root? then []
    else (if p.dir == d then [] else [p.id] + Line(p.sib, d)) + Beyond(p.up, d)
  }

  // The nodes before the subtree in direction d, nearest last.
  function Before(p: Path, d: int): seq<int> {
    if p.Root? then []
    else Before(p.up, d) + (if p.dir == d then Line(p.sib, d) + [p.id] else [])
  }

  // Height of the subtree one step up, when the lower one has height h.
  function Raised(h: nat, sib: Shape): nat {
    1 + Max(h, Height(sib))
  }

  predicate BalancedPath(p: Path, h: nat) {
    p.Root? ||
    (-1 <= h - Height(p.sib) <= 1 && Balanced(p.sib) && BalancedPath(p.up, Raised(h, p.sib)))
  }

  lemma {:induction false} Regroup(a: seq<int>, b: seq<int>, x: seq<int>, c: seq<int>, e: seq<int>)
    ensures a + (b + x + c) + e == (a + (b + x)) + c + ([] + e)
    ensures a + (c + x + b) + e == (a + []) + c + ((x + b) + e)
  {
  }

  lemma {:induction false} PlugLine(p: Path, s: Shape, d: int)
    requires 0 <= d <= 1 && ApartPath(p)
    ensures Line(Plug(p, s), d) == Before(p, d) + Line(s, d) + Beyond(p, d)
    decreases p
  {
    hide Mk, Line;
    if p.Step? {
      var t := Mk(p.id, p.dir, s, p.sib);
      PlugLine(p.up, t, d);
      MkLine(p.id, p.dir, s, p.sib, d);
      Regroup(Before(p.up, d), Line(p.sib, d), [p.id], Line(s, d), Beyond(p.up, d));
    }
  }

  lemma {:induction false} PlugBalanced(p: Path, s: Shape)
    requires ApartPath(p)
    ensures Balanced(Plug(p, s)) <==> Balanced(s) && BalancedPath(p, Height(s))
    decreases p
  {
    hide Mk, Height, Balanced;
    if p.Step? {
      MkFacts(p.id, p.dir, s, p.sib);
      PlugBalanced(p.up, Mk(p.id, p.dir, s, p.sib));
    }
  }

  lemma {:induction false} PlugSize(p: Path, s: Shape, t: Shape)
    ensures Size(Plug(p, s)) - Size(s) == Size(Plug(p, t)) - Size(t)
    decreases p
  {
    if p.Step? {
      PlugSize(p.up, Mk(p.id, p.dir, s, p.sib), Mk(p.id, p.dir, t, p.sib));
    }
  }

  lemma {:induction false} PlugIds(p: Path, s: Shape)
    ensures Ids(Plug(p, s)) == PathIds(p) + Ids(s)
    decreases p
  {
    if p.Step? {
      PlugIds(p.up, Mk(p.id, p.dir, s, p.sib));
    }
  }

  lemma {:induction false} PlugApart(p: Path, s: Shape)
    requires ApartPath(p) && Apart(s) && PathIds(p) !! Ids(s)
    ensures Apart(Plug(p, s))
    decreases p
  {
    if p.Step? {
      MkIds(p.id, p.dir, s, p.sib);
      PlugApart(p.up, Mk(p.id, p.dir, s, p.sib));
    }
  }

  /** The path from node id's subtree to the root. */
  ghost function PathTo(s: Shape, id: int, below: Path): (Path, Shape)
    requires id in Ids(s)
    decreases s
  {
    if s.id == id then (below, s)
    else if id in Ids(s.left) then PathTo(s.left, id, Step(s.id, 0, s.right, below))
    else PathTo(s.right, id, Step(s.id, 1, s.left, below))
  }

  lemma {:induction false} PathToIs(s: Shape, id: int, below: Path)
    requires id in Ids(s) && Apart(s) && ApartPath(below) && PathIds(below) !! Ids(s)
    ensures var (p, f) := PathTo(s, id, below);
            && Plug(p, f) == Plug(below, s) && f.Fork? && f.id == id
            && Apart(f) && ApartPath(p) && PathIds(p) !! Ids(f)
    decreases s
  {
    if s.id != id {
      if id in Ids(s.left) {
        PathToIs(s.left, id, Step(s.id, 0, s.right, below));
      } else {
        PathToIs(s.right, id, Step(s.id, 1, s.left, below));
      }
    }
  }

  lemma {:induction false} LineIds(s: Shape, d: int, x: int)
    requires 0 <= d <= 1
    ensures x in Line(s, d) <==> x in Ids(s)
    decreases s
  {
    if s.Fork? {
      LineIds(s.left, d, x);
      LineIds(s.right, d, x);
    }
  }

  lemma {:induction false} LineSize(s: Shape, d: int)
    requires 0 <= d <= 1
    ensures |Line(s, d)| == Size(s)
    decreases s
  {
    if s.Fork? {
      LineSize(s.left, d);
      LineSize(s.right, d);
    }
  }

  // --------------------------------------------------------------- rotations

  // The heavy kid x of node n is on side d; y is the other one.
  function Rotated(n: int, d: int, x: Shape, y: Shape): Shape
    requires x.Fork?
  {
    if Tilt(x) != -Sign(d) || Kid(x, 1 - d).Leaf? then
      Mk(x.id, d, Kid(x, d), Mk(n, d, Kid(x, 1 - d), y))
    else
      var g := Kid(x, 1 - d);
      Mk(g.id, d, Mk(x.id, d, Kid(x, d), Kid(g, d)), Mk(n, d, Kid(g, 1 - d), y))
  }

  // What the two kinds of rotation are, said with the parts of the kid.

  predicate IsDouble(d: int, x: Shape)
    requires x.Fork?
  {
    Tilt(x) == -Sign(d) && Kid(x, 1 - d).Fork?
  }

  lemma HighIsFork(s: Shape)
    ensures Height(s) > 0 <==> s.Fork?
  {
  }

  /** A rotation restores balance; the result is as high as before if and only if the kid was level. */
  lemma {:induction false} RotatedFacts(n: int, d: int, x: Shape, y: Shape)
    requires 0 <= d <= 1 && Balanced(x) && Balanced(y) && Height(x) == Height(y) + 2
    ensures x.Fork? && Balanced(Rotated(n, d, x, y))
    ensures Height(Rotated(n, d, x, y)) == Height(x) + (if Tilt(x) == 0 then 1 else 0)
    ensures Tilt(x) == -Sign(d) ==> Kid(x, 1 - d).Fork?
  {
    hide Mk, Height, Balanced;
    HighIsFork(x);
    var a, b := Kid(x, d), Kid(x, 1 - d);
    MkAgain(x, d);
    MkFacts(x.id, d, a, b);
    HighIsFork(b);
    if IsDouble(d, x) {
      MkAgain(b, d);
      MkFacts(b.id, d, Kid(b, d), Kid(b, 1 - d));
      DoubleFacts(n, d, x.id, b.id, a, Kid(b, d), Kid(b, 1 - d), y);
    } else {
      MkFacts(n, d, b, y);
      MkFacts(x.id, d, a, Mk(n, d, b, y));
    }
  }

  lemma {:induction false} DoubleFacts(n: int, d: int, c: int, g: int, a: Shape, b: Shape, e: Shape, y: Shape)
    requires 0 <= d <= 1 && Balanced(a) && Balanced(b) && Balanced(e) && Balanced(y)
    requires Height(a) == Height(y) && -1 <= Height(b) - Height(e) <= 1 && Max(Height(b), Height(e)) == Height(a)
    ensures var s := Mk(g, d, Mk(c, d, a, b), Mk(n, d, e, y)); Balanced(s) && Height(s) == Height(a) + 2
  {
    hide Mk, Height, Balanced;
    MkFacts(c, d, a, b);
    MkFacts(n, d, e, y);
    MkFacts(g, d, Mk(c, d, a, b), Mk(n, d, e, y));
  }

  /** A rotation keeps the order and the nodes. */
  lemma {:induction false} RotatedLine(n: int, d: int, x: Shape, y: Shape, e: int)
    requires 0 <= d <= 1 && 0 <= e <= 1 && x.Fork?
    ensures Line(Rotated(n, d, x, y), e) == Line(Mk(n, d, x, y), e)
  {
    hide Mk, Line, Tilt;
    var a, b := Kid(x, d), Kid(x, 1 - d);
    MkAgain(x, d);
    if IsDouble(d, x) {
      MkAgain(b, d);
      DoubleLine(n, d, x.id, b.id, a, Kid(b, d), Kid(b, 1 - d), y, e);
    } else {
      SingleLine(n, d, x.id, a, b, y, e);
    }
  }

  lemma {:induction false} SingleLine(n: int, d: int, c: int, a: Shape, b: Shape, y: Shape, e: int)
    requires 0 <= d <= 1 && 0 <= e <= 1
    ensures Line(Mk(c, d, a, Mk(n, d, b, y)), e) == Line(Mk(n, d, Mk(c, d, a, b), y), e)
  {
    hide Mk, Line;
    MkLine(c, d, a, b, e);
    MkLine(n, d, Mk(c, d, a, b), y, e);
    MkLine(n, d, b, y, e);
    MkLine(c, d, a, Mk(n, d, b, y), e);
    Regroup3(Line(a, e), [c], Line(b, e), [n], Line(y, e));
    Regroup3(Line(y, e), [n], Line(b, e), [c], Line(a, e));
  }

  lemma {:induction false} Regroup3(a: seq<int>, c: seq<int>, b: seq<int>, n: seq<int>, y: seq<int>)
    ensures (a + c + b) + n + y == a + c + (b + n + y)
  {
  }

  lemma {:induction false} DoubleLine(n: int, d: int, c: int, g: int, a: Shape, b: Shape, f: Shape, y: Shape, e: int)
    requires 0 <= d <= 1 && 0 <= e <= 1
    ensures Line(Mk(g, d, Mk(c, d, a, b), Mk(n, d, f, y)), e) ==
            Line(Mk(n, d, Mk(c, d, a, Mk(g, d, b, f)), y), e)
  {
    hide Mk, Line;
    SingleLine(c, d, g, b, f, y, e);
    SingleLine(n, d, g, Mk(c, d, a, b), f, y, e);
    SingleLine(g, d, c, a, b, f, e);
    MkLine(n, d, Mk(c, d, a, Mk(g, d, b, f)), y, e);
    MkLine(n, d, Mk(g, d, Mk(c, d, a, b), f), y, e);
  }

  lemma {:induction false} RotatedIds(n: int, d: int, x: Shape, y: Shape)
    requires 0 <= d <= 1 && x.Fork?
    ensures Size(Rotated(n, d, x, y)) == Size(Mk(n, d, x, y))
    ensures Ids(Rotated(n, d, x, y)) == Ids(Mk(n, d, x, y))
    ensures Apart(Mk(n, d, x, y)) ==> Apart(Rotated(n, d, x, y))
  {
    hide Mk, Ids, Apart, Size, Tilt;
    var a, b := Kid(x, d), Kid(x, 1 - d);
    MkAgain(x, d);
    if IsDouble(d, x) {
      MkAgain(b, d);
      DoubleIds(n, d, x.id, b.id, a, Kid(b, d), Kid(b, 1 - d), y);
    } else {
      SingleIds(n, d, x.id, a, b, y);
    }
  }

  lemma {:induction false} SingleIds(n: int, d: int, c: int, a: Shape, b: Shape, y: Shape)
    requires 0 <= d <= 1
    ensures var s, t := Mk(c, d, a, Mk(n, d, b, y)), Mk(n, d, Mk(c, d, a, b), y);
            Size(s) == Size(t) && Ids(s) == Ids(t) && (Apart(t) <==> Apart(s))
  {
    hide Mk, Ids, Apart, Size;
    MkIds(c, d, a, b);
    MkIds(n, d, Mk(c, d, a, b), y);
    MkIds(n, d, b, y);
    MkIds(c, d, a, Mk(n, d, b, y));
  }

  lemma {:induction false} DoubleIds(n: int, d: int, c: int, g: int, a: Shape, b: Shape, f: Shape, y: Shape)
    requires 0 <= d <= 1
    ensures var s, t := Mk(g, d, Mk(c, d, a, b), Mk(n, d, f, y)), Mk(n, d, Mk(c, d, a, Mk(g, d, b, f)), y);
            Size(s) == Size(t) && Ids(s) == Ids(t) && (Apart(t) <==> Apart(s))
  {
    hide Mk, Ids, Apart, Size;
    SingleIds(n, d, g, Mk(c, d, a, b), f, y);
    SingleIds(g, d, c, a, b, f);
    MkIds(n, d, Mk(c, d, a, Mk(g, d, b, f)), y);
    MkIds(n, d, Mk(g, d, Mk(c, d, a, b), f), y);
  }

  /** The same nodes in the same order. */
  ghost predicate Same(s: Shape, t: Shape) {
    Line(s, 1) == Line(t, 1) && Ids(s) == Ids(t) && Size(s) == Size(t)
  }

  lemma {:induction false} SamePlugged(p: Path, s: Shape, t: Shape)
    requires ApartPath(p) && Same(s, t)
    ensures Same(Plug(p, s), Plug(p, t))
  {
    hide Line, Ids, Size, Plug;
    PlugLine(p, s, 1);
    PlugLine(p, t, 1);
    PlugIds(p, s);
    PlugIds(p, t);
    PlugSize(p, s, t);
  }

  lemma {:induction false} RotatedSame(p: Path, n: int, d: int, x: Shape, y: Shape)
    requires 0 <= d <= 1 && x.Fork? && ApartPath(p)
    ensures Same(Plug(p, Rotated(n, d, x, y)), Plug(p, Mk(n, d, x, y)))
  {
    hide Line, Ids, Size, Plug, Rotated, Mk;
    RotatedLine(n, d, x, y, 1);
    RotatedIds(n, d, x, y);
    SamePlugged(p, Rotated(n, d, x, y), Mk(n, d, x, y));
  }

  /** Line(s, 0) is Line(s, 1) backwards. */
  lemma {:induction false} LineReversed(s: Shape, i: nat)
    requires i < Size(s)
    ensures |Line(s, 0)| == |Line(s, 1)| == Size(s)
    ensures Line(s, 0)[i] == Line(s, 1)[Size(s) - 1 - i]
    decreases s
  {
    LineSize(s, 0);
    LineSize(s, 1);
    LineSize(s.left, 0);
    LineSize(s.left, 1);
    LineSize(s.right, 0);
    LineSize(s.right, 1);
    if i < Size(s.right) {
      LineReversed(s.right, i);
    } else if i > Size(s.right) {
      LineReversed(s.left, i - Size(s.right) - 1);
    }
  }
}
