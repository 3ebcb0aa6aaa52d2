/**
  * The AVL tree: search, neighbours, insertion and removal by pointer surgery with
  * upward rebalancing.
  */
module Avl {
  import opened AvlShape
  import opened AvlExchange
  import opened AvlLinks

  /** Memory holds a balanced tree. */
  ghost predicate TreeIs(mem: Memory, root: int, s: Shape) {
    Apart(s) && Balanced(s) && Rep(mem, s, 0, 0) && root == Top(s)
  }

  /** Keys grow along the line. */
  ghost predicate Ascending(keys: map<int, int>, line: seq<int>) {
    && (forall i: nat :: i < |line| ==> line[i] in keys)
    && (forall i: nat, j: nat :: i < j < |line| ==> keys[line[i]] < keys[line[j]])
  }

  ghost predicate AllBelow(keys: map<int, int>, line: seq<int>, v: int) {
    forall i: nat :: i < |line| ==> line[i] in keys && keys[line[i]] < v
  }

  ghost predicate AllAbove(keys: map<int, int>, line: seq<int>, v: int) {
    forall i: nat :: i < |line| ==> line[i] in keys && keys[line[i]] > v
  }

  class Tree {
    var mem: Memory
    var root: int
    var count: int
    var keys: map<int, int>
    ghost var shape: Shape

    // pfs_avl_create
    constructor ()
      ensures mem == map[] && root == 0 && count == 0 && keys == map[] && shape == Leaf
    {
      mem, root, count, keys, shape := map[], 0, 0, map[], Leaf;
    }

    /** The first half of pfs_avl_rotation: the kid on side `left` comes up. */
    method SingleSurgery(n: int, left: int) returns (balance: int)
      requires n in mem && KidOf(mem[n], left) in mem
      requires var b := KidOf(mem[KidOf(mem[n], left)], 1 - left); b != 0 ==> b in mem
      requires mem[n].parent != 0 ==> mem[n].parent in mem
      modifies this`mem, this`root
      ensures var c := KidOf(old(mem)[n], left);
              && balance == old(mem)[c].bal - Sign(left)
              && mem == SingleMem(old(mem), n, left, c, KidOf(old(mem)[c], 1 - left), old(mem)[n].parent,
                                  old(mem)[n].side, balance)
              && root == if old(mem)[n].parent == 0 then c else old(root)
    {
      var right := 1 - left;
      var parent := mem[n].parent;
      var child := KidOf(mem[n], left);
      var which := mem[n].side;
      balance := mem[child].bal - Sign(left);
      var cright := KidOf(mem[child], right);
      mem := mem[n := WithKid(mem[n], left, cright).(parent := child, side := right, bal := -balance)];
      if cright != 0 {
        mem := mem[cright := mem[cright].(parent := n, side := left)];
      }
      mem := mem[child := WithKid(mem[child], right, n).(parent := parent, side := which, bal := balance)];
      if parent != 0 {
        mem := mem[parent := WithKid(mem[parent], which, child)];
      } else {
        root := child;
      }
    }

    method RotateSingle(n: int, left: int, ghost p: Path, ghost x: Shape, ghost y: Shape, ghost h: nat)
      returns (shorter: bool)
      requires Separate(p, n, left, x, y) && Hangs(mem, p, n, left, x, y) && RepPath(mem, root, p, n, h)
      requires Balanced(x) && Balanced(y) && Height(x) == Height(y) + 2 && Tilt(x) != -Sign(left)
      modifies this`mem, this`root
      ensures x.Fork? && Rep(mem, Rotated(n, left, x, y), Holder(p), Side(p))
      ensures RepPath(mem, root, p, Top(Rotated(n, left, x, y)), h)
      ensures shorter <==> Tilt(x) != 0
    {
      hide Mk, Height, Balanced, Apart, Ids, RepPath, Rep, Separate, Hangs, SingleCells, SingleMem;
      ghost var mem0, root0 := mem, root;
      ghost var a, b := RotationParts(mem, root, p, n, left, x, y, h);
      SingleBalances(left, Height(a), Height(b), Height(y));
      var balance := SingleSurgery(n, left);
      SingleMade(mem0, p, n, left, x.id, a, b, y, balance);
      SingleRotation(mem0, mem, root0, root, p, n, left, x.id, a, b, y, h);
      shorter := balance == 0;
    }

    /** The second half of pfs_avl_rotation: the kid's inner kid comes up. */
    method DoubleSurgery(n: int, left: int)
      requires n in mem && KidOf(mem[n], left) in mem && KidOf(mem[KidOf(mem[n], left)], 1 - left) in mem
      requires var g := mem[KidOf(mem[KidOf(mem[n], left)], 1 - left)];
        (KidOf(g, left) != 0 ==> KidOf(g, left) in mem) && (KidOf(g, 1 - left) != 0 ==> KidOf(g, 1 - left) in mem)
      requires mem[n].parent != 0 ==> mem[n].parent in mem
      modifies this`mem, this`root
      ensures var c := KidOf(old(mem)[n], left);
              var g := KidOf(old(mem)[c], 1 - left);
              && mem == DoubleMem(old(mem), n, left, c, g, KidOf(old(mem)[g], left), KidOf(old(mem)[g], 1 - left),
                                  old(mem)[n].parent, old(mem)[n].side,
                                  if old(mem)[g].bal == Sign(left) then -Sign(left) else 0,
                                  if old(mem)[g].bal == -Sign(left) then Sign(left) else 0)
              && root == if old(mem)[n].parent == 0 then g else old(root)
    {
      hide WithKid, KidOf, Sign;
      var right := 1 - left;
      var parent := mem[n].parent;
      var child := KidOf(mem[n], left);
      var which := mem[n].side;
      var gchild := KidOf(mem[child], right);
      var gleft, gright := KidOf(mem[gchild], left), KidOf(mem[gchild], right);
      var balance := mem[gchild].bal;
      mem := mem[n := WithKid(mem[n], left, gright)
                        .(parent := gchild, side := right, bal := if balance == Sign(left) then -Sign(left) else 0)];
      if gright != 0 {
        mem := mem[gright := mem[gright].(parent := n, side := left)];
      }
      mem := mem[child := WithKid(mem[child], right, gleft)
                            .(parent := gchild, side := left, bal := if balance == -Sign(left) then Sign(left) else 0)];
      if gleft != 0 {
        mem := mem[gleft := mem[gleft].(parent := child, side := right)];
      }
      mem := mem[gchild := WithKid(WithKid(mem[gchild], left, child), right, n)
                             .(parent := parent, side := which, bal := 0)];
      if parent != 0 {
        mem := mem[parent := WithKid(mem[parent], which, gchild)];
      } else {
        root := gchild;
      }
    }

    method RotateDouble(n: int, left: int, ghost p: Path, ghost x: Shape, ghost y: Shape, ghost h: nat)
      requires Separate(p, n, left, x, y) && Hangs(mem, p, n, left, x, y) && RepPath(mem, root, p, n, h)
      requires Balanced(x) && Balanced(y) && Height(x) == Height(y) + 2 && Tilt(x) == -Sign(left)
      modifies this`mem, this`root
      ensures x.Fork? && Rep(mem, Rotated(n, left, x, y), Holder(p), Side(p))
      ensures RepPath(mem, root, p, Top(Rotated(n, left, x, y)), h)
    {
      hide Mk, Height, Balanced, Apart, Ids, RepPath, Rep, Separate, Hangs, DoubleCells, DoubleMem, Tilt;
      ghost var mem0, root0 := mem, root;
      ghost var a, z := RotationParts(mem, root, p, n, left, x, y, h);
      ghost var b, f := InnerParts(mem, p, n, left, x, y, a, z);
      DoubleBalances(left, Height(a), Height(b), Height(f), Height(y));
      DoubleSurgery(n, left);
      DoubleMade(mem0, p, n, left, x.id, z.id, a, b, f, y,
                 Lean(left, Height(f), Height(y)), Lean(left, Height(a), Height(b)));
      DoubleRotation(mem0, mem, root0, root, p, n, left, x.id, z.id, a, b, f, y, h);
    }

    /**
      * pfs_avl_rotation: node n, too heavy by two on one side, is replaced under its path
      * by the rotated subtree; the result says whether that subtree is lower than n's was.
      */
    method Rotate(n: int, balance: int, ghost d: int, ghost p: Path, ghost x: Shape, ghost y: Shape, ghost h: nat)
      returns (shorter: bool)
      requires balance == 2 * Sign(d) && 0 <= d <= 1
      requires Separate(p, n, d, x, y) && Hangs(mem, p, n, d, x, y) && RepPath(mem, root, p, n, h)
      requires Balanced(x) && Balanced(y) && Height(x) == Height(y) + 2
      modifies this`mem, this`root
      ensures x.Fork? && Rep(mem, Rotated(n, d, x, y), Holder(p), Side(p))
      ensures RepPath(mem, root, p, Top(Rotated(n, d, x, y)), h)
      ensures Balanced(Rotated(n, d, x, y))
      ensures shorter <==> Height(Rotated(n, d, x, y)) == Height(x)
      ensures !shorter <==> Height(Rotated(n, d, x, y)) == Height(x) + 1
    {
      hide Mk, Height, Balanced, Apart, Ids, RepPath, Rep, Separate, Hangs, Rotated;
      var left := if balance < 0 then 0 else 1;
      ghost var a, b := RotationParts(mem, root, p, n, left, x, y, h);
      RotatedFacts(n, left, x, y);
      if mem[KidOf(mem[n], left)].bal != -Sign(left) {
        shorter := RotateSingle(n, left, p, x, y, h);
      } else {
        RotateDouble(n, left, p, x, y, h);
        shorter := true;
      }
    }

    /**
      * The upward loop of pfs_avl_insert: the held subtree is one higher than the path
      * above it allows for.  The tree it ends with is balanced and has the same nodes in
      * the same order.
      */
    method GrowUp(ghost p0: Path, ghost s0: Shape, start: int, side: int) returns (ghost t: Shape)
      requires s0.Fork? && Height(s0) == 1 && Held(mem, root, p0, s0, 0) && start == Holder(p0)
      requires start != 0 ==> side == Side(p0)
      modifies this`mem, this`root
      ensures TreeIs(mem, root, t) && Same(t, Plug(p0, s0))
    {
      hide Mk, Height, Balanced, Apart, Ids, RepPath, Rep, Rotated, Held, Plug, Line, Size, Tilt;
      ghost var p, s := p0, s0;
      var node, child := start, side;
      while node != 0
        invariant s.Fork? && Height(s) > 0 && Held(mem, root, p, s, Height(s) - 1)
        invariant node == Holder(p) && (node != 0 ==> child == Side(p)) && Same(Plug(p, s), Plug(p0, s0))
        invariant Height(s) == 1 || Tilt(s) != 0
        decreases p
      {
        HolderZero(mem, root, p, s, Height(s) - 1);
        HeldHangs(mem, root, p, s, Height(s) - 1);
        PlugUp(p, s);
        MkFacts(node, child, s, p.sib);
        var obalance := mem[node].bal;
        var nbalance := obalance + Sign(child);
        if nbalance == 0 {
          ghost var mem0 := mem;
          mem := mem[node := mem[node].(bal := 0)];
          HeldHigher(mem0, mem, root, p, s, Height(s) - 1);
          t := Settle(mem, root, p.up, Mk(node, child, s, p.sib));
          return;
        }
        if obalance != 0 {
          ghost var h := Raised(Height(s) - 1, p.sib);
          GrownNotLevel(p, s, obalance, child);
          var _ := Rotate(node, nbalance, child, p.up, s, p.sib, h);
          RotatedFacts(node, child, s, p.sib);
          RotatedHeld(mem, root, p.up, node, child, s, p.sib, h);
          RotatedSame(p.up, node, child, s, p.sib);
          t := Settle(mem, root, p.up, Rotated(node, child, s, p.sib));
          return;
        }
        ghost var mem0 := mem;
        mem := mem[node := mem[node].(bal := nbalance)];
        HeldHigher(mem0, mem, root, p, s, Height(s) - 1);
        s := Mk(node, child, s, p.sib);
        child, node := mem[node].side, mem[node].parent;
        p := p.up;
      }
      t := AtRoot(mem, root, p, s, Height(s) - 1);
    }

    /** The upward loop of pfs_avl_remove: the held subtree is one lower than the path above it allows for. */
    method ShrinkUp(ghost p0: Path, ghost s0: Shape, start: int, side: int) returns (ghost t: Shape)
      requires Held(mem, root, p0, s0, Height(s0) + 1) && start == Holder(p0) && (start != 0 ==> side == Side(p0))
      modifies this`mem, this`root
      ensures TreeIs(mem, root, t) && Same(t, Plug(p0, s0))
    {
      hide Mk, Height, Balanced, Apart, Ids, RepPath, Rep, Rotated, Held, Plug, Line, Size, Tilt;
      ghost var p, s := p0, s0;
      var node, child := start, side;
      while node != 0
        invariant Held(mem, root, p, s, Height(s) + 1)
        invariant node == Holder(p) && (node != 0 ==> child == Side(p)) && Same(Plug(p, s), Plug(p0, s0))
        decreases p
      {
        HolderZero(mem, root, p, s, Height(s) + 1);
        HeldHangs(mem, root, p, s, Height(s) + 1);
        PlugUp(p, s);
        MkFacts(node, child, s, p.sib);
        var oldBalance := mem[node].bal;
        var newBalance := oldBalance - Sign(child);
        var parent, which := mem[node].parent, mem[node].side;
        if oldBalance == 0 || newBalance == 0 {
          ghost var mem0 := mem;
          mem := mem[node := mem[node].(bal := newBalance)];
          HeldHigher(mem0, mem, root, p, s, Height(s) + 1);
          if oldBalance == 0 {
            t := Settle(mem, root, p.up, Mk(node, child, s, p.sib));
            return;
          }
          s := Mk(node, child, s, p.sib);
        } else {
          ghost var h, d := Raised(Height(s) + 1, p.sib), 1 - child;
          MkFlip(node, child, s, p.sib);
          var shorter := Rotate(node, newBalance, d, p.up, p.sib, s, h);
          RotatedHeld(mem, root, p.up, node, d, p.sib, s, h);
          RotatedSame(p.up, node, d, p.sib, s);
          if !shorter {
            t := Settle(mem, root, p.up, Rotated(node, d, p.sib, s));
            return;
          }
          s := Rotated(node, d, p.sib, s);
        }
        node, child := parent, which;
        p := p.up;
      }
      t := AtRoot(mem, root, p, s, Height(s) + 1);
    }

    /** pfs_avl_insert, at the place a search found. */
    method Insert(node: int, parent: int, child: int, ghost p: Path)
      requires TreeIs(mem, root, shape) && Plug(p, Leaf) == shape && ApartPath(p)
      requires node > 0 && node !in Ids(shape)
      requires parent == Holder(p) && (parent != 0 ==> child == Side(p))
      modifies this`mem, this`root, this`count, this`shape
      ensures TreeIs(mem, root, shape) && count == old(count) + 1 && Size(shape) == old(Size(shape)) + 1
      ensures old(Line(shape, 1)) == Before(p, 1) + Beyond(p, 1)
      ensures Line(shape, 1) == Before(p, 1) + [node] + Beyond(p, 1)
      ensures Ids(shape) == old(Ids(shape)) + {node}
    {
      hide Mk, Height, Balanced, RepPath, Rep, Held, TreeIs;
      ghost var mem0, root0 := mem, root;
      InsertFacts(p, node);
      FootInMemory(mem, root, p);
      mem := mem[node := Links(0, 0, parent, child, 0)];
      count := count + 1;
      if parent == 0 {
        root := node;
      } else {
        mem := mem[parent := WithKid(mem[parent], child, node)];
      }
      LinkedNew(mem0, mem, root0, root, p, node, child);
      shape := GrowUp(p, Fork(node, Leaf, Leaf), parent, child);
    }

    ghost predicate Valid() reads this {
      TreeIs(mem, root, shape) && count == Size(shape) && Ascending(keys, Line(shape, 1))
    }

    /**
      * pfs_avl_find: the node with the key, or the place where it belongs: everything
      * before that place has a smaller key and everything beyond it a larger one.
      */
    method Find(value: int) returns (found: int, prev: int, direction: int, ghost p: Path)
      requires Valid()
      ensures found != 0 ==> found in Ids(shape) && found in keys && keys[found] == value
      ensures found == 0 ==>
        && ApartPath(p) && Plug(p, Leaf) == shape && prev == Holder(p) && (prev != 0 ==> direction == Side(p))
        && AllBelow(keys, Before(p, 1), value) && AllAbove(keys, Beyond(p, 1), value)
    {
      hide Balanced, Height, Line, Ids, Plug, Ascending;
      ghost var s := shape;
      p := Root;
      var node := root;
      prev, direction := 0, 0;
      SearchBegins(keys, shape, value);
      while node != 0
        invariant Searching(mem, keys, shape, p, s, value) && node == Top(s)
        invariant prev == Holder(p) && (prev != 0 ==> direction == Side(p))
        decreases s
      {
        prev := node;
        SearchAt(mem, keys, shape, p, s, value);
        if value == keys[node] {
          return node, prev, direction, p;
        }
        direction := if value < keys[node] then 0 else 1;
        SearchDown(mem, keys, shape, p, s, value, direction);
        p := Step(s.id, direction, Kid(s, 1 - direction), p);
        s := Kid(s, direction);
        node := KidOf(mem[node], direction);
      }
      SearchEnds(mem, keys, shape, p, s, value);
      found := 0;
    }

    /** pfs_avl_add, for a key not yet in the tree: the node takes its place in the order. */
    method Add(node: int, key: int)
      requires Valid() && node > 0 && node !in Ids(shape)
      requires forall x: int :: x in Ids(shape) && x in keys ==> keys[x] != key
      modifies this
      ensures Valid() && count == old(count) + 1
      ensures keys == old(keys)[node := key] && Ids(shape) == old(Ids(shape)) + {node}
      ensures exists i: nat ::
        i <= |old(Line(shape, 1))| && Line(shape, 1) == old(Line(shape, 1))[..i] + [node] + old(Line(shape, 1))[i..]
    {
      hide Rep, Balanced, Height, Ids, Plug;
      var found, prev, direction;
      ghost var p;
      found, prev, direction, p := Find(key);
      assert found == 0;
      keys := keys[node := key];
      InsertFacts(p, node);
      ghost var line := Line(shape, 1);
      Insert(node, prev, direction, p);
      AscendingInsert(old(keys), keys, Before(p, 1), node, Beyond(p, 1), key, shape, old(shape));
      ghost var k := |Before(p, 1)|;
      assert line[..k] == Before(p, 1) && line[k..] == Beyond(p, 1);
    }

    /** Down the side `right` as far as it goes: the first node of the subtree in the direction `left`. */
    method Extreme(top: int, left: int, ghost s0: Shape, ghost parent: int, ghost side: int)
      returns (node: int, ghost g: Shape)
      requires 0 <= left <= 1 && s0.Fork? && Rep(mem, s0, parent, side) && top == s0.id && Balanced(s0) && Apart(s0)
      ensures g.Fork? && node == g.id && node in mem && Ids(g) <= Ids(s0) && Kid(g, 1 - left).Leaf? && Balanced(g)
      ensures mem[node].kid0 == Top(g.left) && mem[node].kid1 == Top(g.right) && mem[node].bal == Tilt(g)
      ensures Line(s0, left) != [] && Line(s0, left)[0] == node
    {
      ghost var par, sd := parent, side;
      g, node := s0, top;
      while KidOf(mem[node], 1 - left) != 0
        invariant g.Fork? && node == g.id && Rep(mem, g, par, sd) && Balanced(g) && Apart(g) && Ids(g) <= Ids(s0)
        invariant Line(g, left) != [] && Line(s0, left) != [] && Line(s0, left)[0] == Line(g, left)[0]
        decreases g
      {
        par, sd := node, 1 - left;
        node := KidOf(mem[node], 1 - left);
        assert Line(g, left) == Line(Kid(g, 1 - left), left) + ([g.id] + Line(Kid(g, left), left));
        g := Kid(g, 1 - left);
      }
      assert g.Fork? && Apart(g);
      ZeroKid(mem, g, par, sd, 1 - left);
    }

    /** pfs_avl_first and pfs_avl_last: the end of the order on the given side, 0 for an empty tree. */
    method Outermost(direction: int) returns (r: int)
      requires TreeIs(mem, root, shape) && 0 <= direction <= 1
      ensures r == if Line(shape, 1 - direction) == [] then 0 else Line(shape, 1 - direction)[0]
    {
      if root == 0 { return 0; }
      ghost var g;
      r, g := Extreme(root, 1 - direction, shape, 0, 0);
    }

    /** pfs_avl_walk: the next node in direction `left` (1: larger keys, 0: smaller), or 0 at the end. */
    method Walk(start: int, left: int) returns (r: int, ghost g: Shape)
      requires TreeIs(mem, root, shape) && start in Ids(shape) && 0 <= left <= 1
      ensures Follows(Line(shape, left), start, r)
      ensures start in mem && (KidOf(mem[start], left) != 0 ==> NearBelow(mem, shape, start, left, r, g))
    {
      hide Rep, RepPath, Line, Ids, Plug, Balanced, BalancedPath, Apart, Height, Follows, NearBelow;
      ghost var (p, f) := PathTo(shape, start, Root);
      PathToIs(shape, start, Root);
      SearchBegins(keys, shape, 0);
      HeldIsTree(mem, root, p, f);
      AtNode(mem, p, f, left);
      FollowsAfter(p, f, left);
      if KidOf(mem[start], left) != 0 {
        r, g := Extreme(KidOf(mem[start], left), left, Kid(f, left), start, left);
        NearBelowIs(mem, shape, p, f, left, g);
        return;
      }
      g := Leaf;
      LeafLine(Kid(f, left), left);
      r := WalkUp(start, left, p, start, Height(f));
      assert Line(Kid(f, left), left) + Beyond(p, left) == Beyond(p, left);
    }

    /** Up until a node is left on its other side: that node is the nearest beyond. */
    method WalkUp(start: int, left: int, ghost p: Path, ghost top: int, ghost h: nat) returns (r: int)
      requires start in mem && 0 <= left <= 1 && ApartPath(p) && RepPath(mem, root, p, top, h)
      requires mem[start].parent == Holder(p) && (Holder(p) != 0 ==> mem[start].side == Side(p))
      ensures r == if Beyond(p, left) == [] then 0 else Beyond(p, left)[0]
    {
      hide Rep, Line, Height;
      ghost var q, t, k := p, top, h;
      var node, child := mem[start].parent, mem[start].side;
      while node != 0 && child != 1 - left
        invariant node == Holder(q) && (node != 0 ==> child == Side(q))
        invariant ApartPath(q) && Beyond(q, left) == Beyond(p, left) && RepPath(mem, root, q, t, k)
        decreases q
      {
        assert q.Step? && [] + Beyond(q.up, left) == Beyond(q.up, left);
        child, node := mem[node].side, mem[node].parent;
        t, k := q.id, Raised(k, q.sib);
        q := q.up;
      }
      r := node;
    }

    /** pfs_detach_noninterior: the only kid, if any, takes the node's place. */
    method Detach(n: int, ghost p: Path, ghost f: Shape)
      requires f.Fork? && n == f.id && (f.left.Leaf? || f.right.Leaf?) && Held(mem, root, p, f, Height(f))
      modifies this`mem, this`root
      ensures Held(mem, root, p, OnlyPart(f), Height(OnlyPart(f)) + 1)
    {
      hide Rep, RepPath, Height, Balanced, Apart, Ids, Held;
      DetachFacts(mem, root, p, f);
      ghost var mem0, root0 := mem, root;
      var parent, bal, side := mem[n].parent, mem[n].bal, mem[n].side;
      var child := 0;
      if bal != 0 {
        child := KidOf(mem[n], if bal < 0 then 0 else 1);
        mem := mem[child := mem[child].(parent := parent, side := side)];
      }
      if parent != 0 {
        mem := mem[parent := WithKid(mem[parent], side, child)];
      } else {
        root := child;
      }
      Detached(mem0, mem, root0, root, p, f);
    }

    // The fields, in the order of pfs_avl_remove.
    method ExchangeFields(node: int, subst: int, tmp: int)
      requires node in mem && subst in mem && Spread(mem, node, subst, tmp)
      modifies this`mem, this`root
      ensures mem == Exchanged(old(mem), node, subst, tmp)
      ensures root == if old(mem)[node].parent == 0 then subst else old(root)
    {
      hide WithKid, KidOf, Spread;
      var parent, side, cell := mem[node].parent, mem[node].side, mem[subst];
      var node0 := mem[node];
      mem := mem[tmp := cell][subst := mem[node]];
      if cell.parent == node {
        mem := mem[subst := WithKid(node0, cell.side, tmp)];
      }
      var placed := mem[subst];
      mem := Update(mem, parent, WithKid(At(mem, parent), side, subst));
      if parent == 0 {
        root := subst;
      }
      mem := Update(mem, placed.kid0, At(mem, placed.kid0).(parent := subst));
      mem := Update(mem, placed.kid1, At(mem, placed.kid1).(parent := subst));
      var holder := At(mem, tmp).parent;
      mem := Update(mem, holder, WithKid(At(mem, holder), cell.side, tmp));
      var kid := KidOf(cell, if cell.bal > 0 then 1 else 0);
      mem := Update(mem, kid, At(mem, kid).(parent := tmp));
    }

    /**
      * The part of pfs_avl_remove that puts `subst` in the place of `node` and `tmp` in the place of
      * `subst`: memory is then the same tree with these nodes renamed.
      */
    method Exchange(node: int, subst: int, tmp: int)
      requires TreeIs(mem, root, shape) && node in mem && subst in mem && MayExchange(mem, shape, node, subst, tmp)
      modifies this`mem, this`root, this`shape
      ensures shape == Rename(old(shape), node, subst, tmp) && TreeIs(mem, root, shape)
      ensures tmp in mem && (mem[tmp].kid0 == 0 || mem[tmp].kid1 == 0)
    {
      hide Rep, Balanced, Apart, Exchanged, Rename, Agrees;
      ghost var mem0, root0 := mem, root;
      Neighbours(mem, shape, node, subst, tmp);
      ExchangeFields(node, subst, tmp);
      ExchangedTree(mem0, root0, shape, mem, root, node, subst, tmp);
      shape := Rename(shape, node, subst, tmp);
    }

    /** Detach a node with at most one kid and rebalance upwards. */
    method RemoveHere(n: int)
      requires TreeIs(mem, root, shape) && n in Ids(shape) && n in mem && (mem[n].kid0 == 0 || mem[n].kid1 == 0)
      modifies this`mem, this`root, this`shape
      ensures TreeIs(mem, root, shape) && Size(shape) == old(Size(shape)) - 1 && Ids(shape) == old(Ids(shape)) - {n}
      ensures Dropped(old(Line(shape, 1)), n, Line(shape, 1))
    {
      hide Rep, RepPath, Line, Ids, Plug, Balanced, BalancedPath, Apart, Height, Held, Dropped, Size;
      ghost var (p, f) := PathTo(shape, n, Root);
      PathToIs(shape, n, Root);
      SearchBegins(keys, shape, 0);
      HeldIsTree(mem, root, p, f);
      NoInterior(mem, root, p, f);
      var parent, side := mem[n].parent, mem[n].side;
      Detach(n, p, f);
      DroppedHere(p, f);
      shape := ShrinkUp(p, OnlyPart(f), parent, side);
    }

    /**
      * pfs_avl_remove: the node leaves the order and nothing else changes; `tmp` is the
      * address of the function's stack node.
      */
    method Remove(node: int, tmp: int)
      requires Valid() && node in Ids(shape) && tmp > 0 && tmp !in Ids(shape)
      modifies this
      ensures Valid() && count == old(count) - 1 && keys == old(keys)
      ensures Ids(shape) == old(Ids(shape)) - {node}
      ensures Dropped(old(Line(shape, 1)), node, Line(shape, 1))
    {
      hide Rep, Line, Ids, Balanced, Apart, Height, Dropped, Size, Ascending;
      count := count - 1;
      NodeInMemory(mem, root, shape, node);
      if mem[node].kid0 != 0 && mem[node].kid1 != 0 {
        var c := if mem[node].bal > 0 then 1 else 0;
        var subst;
        ghost var g;
        subst, g := Walk(node, c);
        ghost var shape0 := shape;
        ReadyToExchange(mem, root, shape, node, c, subst, g, tmp);
        Exchange(node, subst, tmp);
        RenamedOrder(keys, shape0, node, subst, tmp, c);
        RemoveHere(tmp);
        AfterExchange(keys, shape0, shape, node, subst, tmp, c);
      } else {
        RemoveHere(node);
      }
      AscendingDropped(keys, old(Line(shape, 1)), node, Line(shape, 1));
    }
  }

  /** What pfs_avl_rotation reads: the heavy kid and its kids are there, with these balances. */
  lemma {:induction false} RotationParts(mem: Memory, root: int, p: Path, n: int, d: int, x: Shape, y: Shape, h: nat)
    returns (a: Shape, b: Shape)
    requires Separate(p, n, d, x, y) && Hangs(mem, p, n, d, x, y) && RepPath(mem, root, p, n, h)
    requires Balanced(x) && Balanced(y) && Height(x) == Height(y) + 2
    ensures 0 <= d <= 1 && n in mem && n > 0 && mem[n].parent == Holder(p) && KidOf(mem[n], 1 - d) == Top(y)
    ensures x.Fork? && x == Mk(x.id, d, a, b) && a == Kid(x, d) && b == Kid(x, 1 - d)
    ensures x.id in mem && KidOf(mem[n], d) == x.id && KidOf(mem[x.id], d) == Top(a)
      && KidOf(mem[x.id], 1 - d) == Top(b)
    ensures mem[x.id].bal == Lean(d, Height(a), Height(b)) == Tilt(x) && Height(x) == 1 + Max(Height(a), Height(b))
    ensures Balanced(x) ==> Balanced(a) && Balanced(b) && -1 <= Height(a) - Height(b) <= 1
    ensures b.Fork? ==> b.id in mem && b.id > 0 && b.id != n && b.id != x.id && b.id != Holder(p)
    ensures n != x.id && x.id > 0 && Holder(p) != n && Holder(p) != x.id
    ensures p.Step? ==> p.id in mem && p.id > 0 && mem[n].side == p.dir && 0 <= p.dir <= 1
  {
    hide Mk, Height, Balanced, Apart, Ids, PathIds;
    HighIsFork(x);
    OuterApart(p, n, d, x, y);
    a, b := Kid(x, d), Kid(x, 1 - d);
    MkAgain(x, d);
    RepMk(mem, x.id, d, a, b, n, d);
    MkFacts(x.id, d, a, b);
    MkIds(x.id, d, a, b);
    TopIsIn(x);
    HolderIsIn(p);
    TopIsIn(b);
  }

  lemma SingleBalances(d: int, a: int, b: int, y: int)
    requires 0 <= d <= 1 && -1 <= a - b <= 1 && (if a < b then b else a) == y + 1 && Lean(d, a, b) != -Sign(d)
    ensures var bal := Lean(d, a, b) - Sign(d);
            && -bal == Lean(d, b, y)
            && bal == Lean(d, a, 1 + (if b < y then y else b))
            && (bal == 0 <==> a != b)
  {
  }

  lemma {:induction false} InnerParts(mem: Memory, p: Path, n: int, d: int, x: Shape, y: Shape, a: Shape, z: Shape)
    returns (b: Shape, f: Shape)
    requires Separate(p, n, d, x, y) && Hangs(mem, p, n, d, x, y) && x.Fork? && x == Mk(x.id, d, a, z) && Balanced(x)
    requires Height(x) == Height(y) + 2 && Lean(d, Height(a), Height(z)) == -Sign(d)
    ensures z.Fork? && z == Mk(z.id, d, b, f) && b == Kid(z, d) && f == Kid(z, 1 - d)
    ensures z.id in mem && KidOf(mem[z.id], d) == Top(b) && KidOf(mem[z.id], 1 - d) == Top(f)
    ensures mem[z.id].bal == Lean(d, Height(b), Height(f)) && -1 <= Height(b) - Height(f) <= 1
    ensures Height(a) == Height(y) && 1 + Max(Height(b), Height(f)) == Height(a) + 1
    ensures z.id > 0 && z.id !in {n, x.id, Holder(p)}
    ensures Known(mem, b, {n, x.id, z.id, Holder(p), Top(f)}) && Known(mem, f, {n, x.id, z.id, Holder(p), Top(b)})
  {
    hide Mk, Height, Balanced, Apart, Ids, PathIds, ApartPath, Rep;
    MkFacts(x.id, d, a, z);
    HighIsFork(z);
    b, f := Kid(z, d), Kid(z, 1 - d);
    MkAgain(z, d);
    MkFacts(z.id, d, b, f);
    RepMk(mem, x.id, d, a, z, n, d);
    RepMk(mem, z.id, d, b, f, x.id, 1 - d);
    OuterApart(p, n, d, x, y);
    InnerApart(d, x.id, z.id, a, b, f);
    TopInRep(mem, b, z.id, d);
    TopInRep(mem, f, z.id, 1 - d);
    HolderIsIn(p);
    TopIsIn(b);
    TopIsIn(f);
  }

  lemma {:induction false} TopInRep(mem: Memory, s: Shape, parent: int, side: int)
    requires Rep(mem, s, parent, side)
    ensures s.Fork? ==> s.id in mem
  {
  }

  lemma DoubleBalances(d: int, a: int, b: int, f: int, y: int)
    requires 0 <= d <= 1 && -1 <= b - f <= 1 && (if b < f then f else b) == a && a == y
    ensures var g := Lean(d, b, f);
            && Lean(d, f, y) == (if g == Sign(d) then -Sign(d) else 0)
            && Lean(d, a, b) == (if g == -Sign(d) then Sign(d) else 0)
  {
  }

  lemma {:induction false} HolderZero(mem: Memory, root: int, p: Path, s: Shape, h: nat)
    requires Held(mem, root, p, s, h)
    ensures Holder(p) == 0 <==> p.Root?
    ensures p.Step? ==> 0 <= p.dir <= 1 && p.id > 0
    ensures ApartPath(p)
  {
  }

  lemma {:induction false} PlugUp(p: Path, s: Shape)
    requires p.Step?
    ensures Plug(p, s) == Plug(p.up, Mk(p.id, p.dir, s, p.sib))
  {
  }

  /** A subtree held at its own height is part of a whole tree. */
  lemma {:induction false} Settle(mem: Memory, root: int, p: Path, s: Shape) returns (t: Shape)
    requires Held(mem, root, p, s, Height(s))
    ensures t == Plug(p, s) && TreeIs(mem, root, t)
  {
    hide Rep, RepPath, Plug, Height;
    t := Plug(p, s);
    HeldIsTree(mem, root, p, s);
  }

  /** At the root any recorded height will do. */
  lemma {:induction false} AtRoot(mem: Memory, root: int, p: Path, s: Shape, h: nat) returns (t: Shape)
    requires Held(mem, root, p, s, h) && Holder(p) == 0
    ensures t == Plug(p, s) && TreeIs(mem, root, t)
  {
    t := s;
  }

  /** A subtree that grew into a tilt of two is itself tilted. */
  lemma {:induction false} GrownNotLevel(p: Path, s: Shape, bal: int, child: int)
    requires p.Step? && 0 <= child <= 1 && child == p.dir && Height(s) > 0
    requires bal == Lean(child, Height(s) - 1, Height(p.sib)) && bal != 0 && bal + Sign(child) != 0
    requires -1 <= Height(s) - 1 - Height(p.sib) <= 1
    ensures Height(s) == Height(p.sib) + 2 && Height(s) > 1 && bal == Sign(child)
    ensures Raised(Height(s) - 1, p.sib) == Height(s)
  {
  }

  lemma InsertFacts(p: Path, node: int)
    requires ApartPath(p) && node !in Ids(Plug(p, Leaf))
    ensures var s := Fork(node, Leaf, Leaf);
            && Line(Plug(p, Leaf), 1) == Before(p, 1) + Beyond(p, 1)
            && Line(Plug(p, s), 1) == Before(p, 1) + [node] + Beyond(p, 1)
            && Size(Plug(p, s)) == Size(Plug(p, Leaf)) + 1
            && Ids(Plug(p, Leaf)) == PathIds(p) && Ids(Plug(p, s)) == PathIds(p) + {node}
            && Height(s) == 1
  {
    hide Plug, PathIds;
    var s := Fork(node, Leaf, Leaf);
    PlugLine(p, Leaf, 1);
    PlugLine(p, s, 1);
    PlugSize(p, s, Leaf);
    PlugIds(p, Leaf);
    PlugIds(p, s);
    assert Line(s, 1) == [node];
  }

  lemma {:induction false} FootInMemory(mem: Memory, root: int, p: Path)
    requires ApartPath(p) && TreeIs(mem, root, Plug(p, Leaf))
    ensures Holder(p) != 0 ==> p.Step? && Holder(p) in mem
  {
    HeldIsTree(mem, root, p, Leaf);
  }

  lemma {:induction false} LinkedNew(mem: Memory, mem': Memory, root: int, root': int, p: Path, node: int, child: int)
    requires ApartPath(p) && TreeIs(mem, root, Plug(p, Leaf)) && node > 0 && node !in PathIds(p)
    requires Holder(p) != 0 ==> child == Side(p) && Holder(p) in mem
    requires mem' == if Holder(p) == 0 then mem[node := Links(0, 0, 0, child, 0)]
                     else mem[node := Links(0, 0, Holder(p), child, 0)]
                             [Holder(p) := WithKid(mem[Holder(p)], child, node)]
    requires root' == if Holder(p) == 0 then node else root
    ensures Held(mem', root', p, Fork(node, Leaf, Leaf), 0)
  {
    HeldIsTree(mem, root, p, Leaf);
    HolderIsIn(p);
    PathRetopped(mem, mem', root, root', p, 0, node, 0);
    var s := Fork(node, Leaf, Leaf);
    assert Ids(Leaf) == {} && Ids(s) == {node} && Tilt(s) == 0;
    assert Rep(mem', Leaf, node, 0) && Rep(mem', Leaf, node, 1) && node in mem';
    assert Rep(mem', s, Holder(p), Side(p));
  }

  // ------------------------------------------------------------------- search

  /** The search is at subtree s: the nodes on either side of it are smaller and larger. */
  ghost predicate Searching(mem: Memory, keys: map<int, int>, shape: Shape, p: Path, s: Shape, v: int) {
    && ApartPath(p) && Apart(s) && PathIds(p) !! Ids(s) && Plug(p, s) == shape
    && Rep(mem, s, Holder(p), Side(p)) && Ascending(keys, Line(s, 1))
    && AllBelow(keys, Before(p, 1), v) && AllAbove(keys, Beyond(p, 1), v)
  }

  lemma SearchBegins(keys: map<int, int>, shape: Shape, v: int)
    ensures Plug(Root, shape) == shape && PathIds(Root) == {} && AllBelow(keys, Before(Root, 1), v)
    ensures AllAbove(keys, Beyond(Root, 1), v)
  {
  }

  lemma {:induction false} SearchAt(mem: Memory, keys: map<int, int>, shape: Shape, p: Path, s: Shape, v: int)
    requires Searching(mem, keys, shape, p, s, v) && Top(s) != 0
    ensures s.Fork? && s.id in mem && s.id in keys && s.id in Ids(shape)
    ensures KidOf(mem[s.id], 0) == Top(s.left) && KidOf(mem[s.id], 1) == Top(s.right)
  {
    PlugIds(p, s);
    assert Line(s, 1)[|Line(s.left, 1)|] == s.id;
  }

  lemma {:induction false} SearchDown(mem: Memory, keys: map<int, int>, shape: Shape, p: Path, s: Shape, v: int, d: int)
    requires Searching(mem, keys, shape, p, s, v) && s.Fork? && 0 <= d <= 1 && s.id in keys
    requires if d == 0 then v < keys[s.id] else keys[s.id] < v
    ensures Searching(mem, keys, shape, Step(s.id, d, Kid(s, 1 - d), p), Kid(s, d), v)
  {
    hide Balanced, Height;
    var q, k := Step(s.id, d, Kid(s, 1 - d), p), Kid(s, d);
    MkAgain(s, d);
    PlugUp(q, k);
    LineSplit(keys, Line(s.left, 1), s.id, Line(s.right, 1), v);
    if d == 0 {
      AboveJoin(keys, [s.id] + Line(s.right, 1), Beyond(p, 1), v);
    } else {
      BelowJoin(keys, Before(p, 1), Line(s.left, 1) + [s.id], v);
    }
  }

  lemma {:induction false} LineSplit(keys: map<int, int>, a: seq<int>, x: int, b: seq<int>, v: int)
    requires Ascending(keys, a + [x] + b) && x in keys
    ensures Ascending(keys, a) && Ascending(keys, b)
    ensures v < keys[x] ==> AllAbove(keys, [x] + b, v)
    ensures keys[x] < v ==> AllBelow(keys, a + [x], v)
  {
    var l := a + [x] + b;
    assert forall i: nat :: i < |a| ==> l[i] == a[i];
    assert l[|a|] == x;
    assert forall i: nat :: i < |b| ==> l[|a| + 1 + i] == b[i];
  }

  lemma {:induction false} AboveJoin(keys: map<int, int>, a: seq<int>, b: seq<int>, v: int)
    requires AllAbove(keys, a, v) && AllAbove(keys, b, v)
    ensures AllAbove(keys, a + b, v)
  {
  }

  lemma {:induction false} BelowJoin(keys: map<int, int>, a: seq<int>, b: seq<int>, v: int)
    requires AllBelow(keys, a, v) && AllBelow(keys, b, v)
    ensures AllBelow(keys, a + b, v)
  {
  }

  lemma {:induction false} SearchEnds(mem: Memory, keys: map<int, int>, shape: Shape, p: Path, s: Shape, v: int)
    requires Searching(mem, keys, shape, p, s, v) && Top(s) == 0
    ensures s == Leaf
  {
  }

  lemma {:induction false} AscendingInsert(keys: map<int, int>, keys': map<int, int>, a: seq<int>, x: int, b: seq<int>,
                                           v: int,
                        s: Shape, s0: Shape)
    requires Ascending(keys, a + b) && AllBelow(keys, a, v) && AllAbove(keys, b, v) && keys' == keys[x := v]
    requires Line(s0, 1) == a + b && x !in Ids(s0) && Line(s, 1) == a + [x] + b
    ensures Ascending(keys', Line(s, 1))
  {
    LineIds(s0, 1, x);
    var l, l' := a + b, a + [x] + b;
    forall i: nat | i < |a| ensures l'[i] == a[i] == l[i] && a[i] != x {
      assert l[i] in l;
    }
    forall i: nat | i < |b| ensures l'[|a| + 1 + i] == b[i] == l[|a| + i] && b[i] != x {
      assert l[|a| + i] in l;
    }
  }

  // --------------------------------------------------------------- neighbours

  /** r comes right after x in the line, or is 0 if x is its last. */
  ghost predicate Follows(line: seq<int>, x: int, r: int) {
    exists i: nat :: FollowsAt(line, i, x, r)
  }

  ghost predicate FollowsAt(line: seq<int>, i: nat, x: int, r: int) {
    i < |line| && line[i] == x && r == (if i + 1 < |line| then line[i + 1] else 0)
  }

  ghost predicate NearBelow(mem: Memory, shape: Shape, a: int, c: int, b: int, g: Shape) {
    exists p: Path, x: Shape, y: Shape :: NearBelowAt(mem, shape, p, a, c, x, y, b, g)
  }

  /** b tops g, in the subtree x on side c of a, and has no kid towards a. */
  ghost predicate NearBelowAt(mem: Memory, shape: Shape, p: Path, a: int, c: int, x: Shape, y: Shape, b: int,
                              g: Shape) {
    && shape == Plug(p, Mk(a, c, x, y)) && ApartPath(p) && Apart(Mk(a, c, x, y)) && PathIds(p) !! Ids(Mk(a, c, x, y))
    && x.Fork? && g.Fork? && b == g.id && b in Ids(x) && Kid(g, 1 - c).Leaf? && Balanced(g)
    && b in mem && mem[b].kid0 == Top(g.left) && mem[b].kid1 == Top(g.right) && mem[b].bal == Tilt(g)
    && Line(x, c) != [] && Line(x, c)[0] == b
  }

  lemma {:induction false} ZeroKid(mem: Memory, g: Shape, parent: int, side: int, d: int)
    requires g.Fork? && Rep(mem, g, parent, side) && Apart(g) && 0 <= d <= 1 && KidOf(mem[g.id], d) == 0
    ensures Kid(g, d).Leaf?
    ensures Line(g, 1 - d) != [] && Line(g, 1 - d)[0] == g.id
  {
  }

  lemma {:induction false} AtNode(mem: Memory, p: Path, f: Shape, d: int)
    requires f.Fork? && Apart(f) && Rep(mem, f, Holder(p), Side(p)) && Balanced(f) && 0 <= d <= 1
    ensures f.id in mem && KidOf(mem[f.id], d) == Top(Kid(f, d)) && Rep(mem, Kid(f, d), f.id, d)
    ensures Top(Kid(f, d)) == 0 <==> Kid(f, d).Leaf?
    ensures Balanced(Kid(f, d)) && Apart(Kid(f, d))
    ensures mem[f.id].parent == Holder(p) && (Holder(p) != 0 ==> mem[f.id].side == Side(p))
  {
  }

  /** What follows a node: the subtree on that side, then what is beyond its own subtree. */
  lemma {:induction false} FollowsAfter(p: Path, f: Shape, d: int)
    requires f.Fork? && ApartPath(p) && 0 <= d <= 1
    ensures var rest := Line(Kid(f, d), d) + Beyond(p, d);
            Follows(Line(Plug(p, f), d), f.id, if rest == [] then 0 else rest[0])
  {
    hide Plug, Before, Beyond, Line, Follows;
    PlugLine(p, f, d);
    LineAtTop(f, d);
    var a, b, c, e := Before(p, d), Line(Kid(f, 1 - d), d), Line(Kid(f, d), d), Beyond(p, d);
    FollowsJoin(a + b, f.id, c + e);
    assert a + (b + [f.id] + c) + e == (a + b) + [f.id] + (c + e);
  }

  lemma LineAtTop(f: Shape, d: int)
    requires f.Fork?
    ensures Line(f, d) == Line(Kid(f, 1 - d), d) + [f.id] + Line(Kid(f, d), d)
  {
  }

  lemma {:induction false} FollowsJoin(a: seq<int>, x: int, b: seq<int>)
    ensures Follows(a + [x] + b, x, if b == [] then 0 else b[0])
  {
    var line := a + [x] + b;
    assert line[|a|] == x;
    assert b != [] ==> line[|a| + 1] == b[0];
    assert FollowsAt(line, |a|, x, if b == [] then 0 else b[0]);
  }

  lemma {:induction false} NearBelowIs(mem: Memory, shape: Shape, p: Path, f: Shape, c: int, g: Shape)
    requires f.Fork? && 0 <= c <= 1 && shape == Plug(p, f) && ApartPath(p) && Apart(f) && PathIds(p) !! Ids(f)
    requires var x := Kid(f, c);
      && x.Fork? && g.Fork? && Ids(g) <= Ids(x) && Kid(g, 1 - c).Leaf? && Balanced(g)
      && g.id in mem && mem[g.id].kid0 == Top(g.left) && mem[g.id].kid1 == Top(g.right) && mem[g.id].bal == Tilt(g)
      && Line(x, c) != [] && Line(x, c)[0] == g.id
    ensures NearBelow(mem, shape, f.id, c, g.id, g)
  {
    hide Rep, Balanced, Line, Plug, Apart;
    MkAgain(f, c);
    TopIsIn(g);
    assert NearBelowAt(mem, shape, p, f.id, c, Kid(f, c), Kid(f, 1 - c), g.id, g);
  }

  lemma LeafLine(s: Shape, d: int)
    ensures s.Leaf? ==> Line(s, d) == []
  {
  }

  // ------------------------------------------------------------------ removal

  // What is left of a fork with at most one kid.
  function OnlyPart(f: Shape): Shape
    requires f.Fork?
  {
    if f.left.Leaf? then f.right else f.left
  }

  lemma {:induction false} DetachFacts(mem: Memory, root: int, p: Path, f: Shape)
    requires f.Fork? && (f.left.Leaf? || f.right.Leaf?) && Held(mem, root, p, f, Height(f))
    ensures f.id in mem && mem[f.id].parent == Holder(p)
      && (Holder(p) != 0 ==> Holder(p) in mem && mem[f.id].side == Side(p))
    ensures mem[f.id].bal == 0 <==> OnlyPart(f).Leaf?
    ensures mem[f.id].bal < 0 ==> mem[f.id].kid0 == OnlyPart(f).id && mem[f.id].kid0 in mem
    ensures mem[f.id].bal > 0 ==> mem[f.id].kid1 == OnlyPart(f).id && mem[f.id].kid1 in mem
    ensures Holder(p) != f.id
  {
    HighIsFork(f.left);
    HighIsFork(f.right);
    HolderIsIn(p);
    TopIsIn(f);
    TopInRep(mem, f.left, f.id, 0);
    TopInRep(mem, f.right, f.id, 1);
  }

  lemma {:induction false} Detached(mem: Memory, mem': Memory, root: int, root': int, p: Path, f: Shape)
    requires f.Fork? && (f.left.Leaf? || f.right.Leaf?) && Held(mem, root, p, f, Height(f))
    requires f.id in mem && (Holder(p) != 0 ==> Holder(p) in mem)
    requires var z := OnlyPart(f);
      (z.Fork? ==> z.id in mem) &&
      var m := if z.Leaf? then mem else mem[z.id := mem[z.id].(parent := Holder(p), side := mem[f.id].side)];
      mem' ==
        if Holder(p) == 0 || Holder(p) !in m then m else m[Holder(p) := WithKid(m[Holder(p)], mem[f.id].side, Top(z))]
    requires root' == if Holder(p) == 0 then Top(OnlyPart(f)) else root
    ensures Held(mem', root', p, OnlyPart(f), Height(OnlyPart(f)) + 1)
  {
    hide PathIds, ApartPath, BalancedPath;
    var z := OnlyPart(f);
    HolderIsIn(p);
    TopIsIn(f);
    TopIsIn(z);
    DetachShape(mem, root, p, f);
    assert SameOn(mem, mem', Ids(z) - {Top(z)});
    DetachMoves(mem, mem', z, f.id, if f.left.Leaf? then 1 else 0, Holder(p), mem[f.id].side, Side(p));
    PathRetopped(mem, mem', root, root', p, f.id, Top(z), Height(z) + 1);
  }

  lemma {:induction false} DetachMoves(mem: Memory, mem': Memory, z: Shape, parent: int, side: int, parent': int,
                                       side': int, want: int)
    requires Rep(mem, z, parent, side) && Apart(z) && SameOn(mem, mem', Ids(z) - {Top(z)})
    requires z.Fork? ==> z.id in mem && z.id in mem' && mem'[z.id] == mem[z.id].(parent := parent', side := side')
    requires parent' != 0 ==> side' == want
    ensures Rep(mem', z, parent', want)
  {
    RepMoved(mem, mem', z, parent, side, parent', side');
  }

  lemma {:induction false} DetachShape(mem: Memory, root: int, p: Path, f: Shape)
    requires f.Fork? && (f.left.Leaf? || f.right.Leaf?) && Held(mem, root, p, f, Height(f))
    ensures var z := OnlyPart(f);
            && Height(f) == Height(z) + 1 && Balanced(z) && Apart(z) && Ids(z) <= Ids(f) && f.id !in Ids(z)
            && Rep(mem, z, f.id, if f.left.Leaf? then 1 else 0)
            && (Holder(p) != 0 ==> mem[f.id].side == Side(p))
            && PathIds(p) !! Ids(f) && ApartPath(p)
            && RepPath(mem, root, p, f.id, Height(z) + 1) && BalancedPath(p, Height(z) + 1)
            && (p.Step? ==> p.dir == Side(p))
  {
  }

  /** line' is the line without x. */
  ghost predicate Dropped(line: seq<int>, x: int, line': seq<int>) {
    exists i: nat :: DroppedAt(line, i, x, line')
  }

  ghost predicate DroppedAt(line: seq<int>, i: nat, x: int, line': seq<int>) {
    i < |line| && line[i] == x && line' == line[..i] + line[i + 1..]
  }

  lemma {:induction false} NoInterior(mem: Memory, root: int, p: Path, f: Shape)
    requires f.Fork? && f.id in mem && Held(mem, root, p, f, Height(f)) && (mem[f.id].kid0 == 0 || mem[f.id].kid1 == 0)
    ensures f.left.Leaf? || f.right.Leaf?
    ensures mem[f.id].parent == Holder(p) && (Holder(p) != 0 ==> mem[f.id].side == Side(p))
  {
    if mem[f.id].kid0 == 0 {
      ZeroKid(mem, f, Holder(p), Side(p), 0);
    } else {
      ZeroKid(mem, f, Holder(p), Side(p), 1);
    }
  }

  lemma {:induction false} DroppedHere(p: Path, f: Shape)
    requires ApartPath(p) && Apart(f) && f.Fork? && (f.left.Leaf? || f.right.Leaf?) && PathIds(p) !! Ids(f)
    ensures var z := OnlyPart(f);
            && Dropped(Line(Plug(p, f), 1), f.id, Line(Plug(p, z), 1))
            && Size(Plug(p, z)) == Size(Plug(p, f)) - 1 && Ids(Plug(p, z)) == Ids(Plug(p, f)) - {f.id}
  {
    hide Plug, Before, Beyond, PathIds;
    var z := OnlyPart(f);
    PlugLine(p, f, 1);
    PlugLine(p, z, 1);
    PlugSize(p, f, z);
    PlugIds(p, f);
    PlugIds(p, z);
    TopIsIn(f);
    DroppedJoin(Before(p, 1), Line(f.left, 1), f.id, Line(f.right, 1), Beyond(p, 1));
    assert Line(z, 1) == Line(f.left, 1) + Line(f.right, 1);
  }

  lemma {:induction false} DroppedJoin(a: seq<int>, b: seq<int>, x: int, c: seq<int>, e: seq<int>)
    ensures Dropped(a + (b + [x] + c) + e, x, a + (b + c) + e)
  {
    var line, i := a + (b + [x] + c) + e, |a| + |b|;
    assert line == (a + b) + [x] + (c + e);
    assert line[i] == x && line[..i] == a + b && line[i + 1..] == c + e;
    assert (a + b) + (c + e) == a + (b + c) + e;
    assert DroppedAt(line, i, x, a + (b + c) + e);
  }

  lemma {:induction false} NodeInMemory(mem: Memory, root: int, s: Shape, i: int)
    requires TreeIs(mem, root, s) && i in Ids(s)
    ensures i in mem
  {
    LinksAgree(mem, s, 0, 0, i);
  }

  lemma {:induction false} ReadyToExchange(mem: Memory, root: int, s: Shape, a: int, c: int, b: int, g: Shape, t: int)
    requires TreeIs(mem, root, s) && a in Ids(s) && a in mem && mem[a].kid0 != 0 && mem[a].kid1 != 0 && 0 <= c <= 1
    requires NearBelow(mem, s, a, c, b, g) && t > 0 && t !in Ids(s)
    ensures b in mem && MayExchange(mem, s, a, b, t) && Spread(mem, a, b, t)
    ensures mem[b].kid0 == 0 || mem[b].kid1 == 0
  {
    hide Rep, Balanced, Height, Line;
    var p: Path, x: Shape, y: Shape :| NearBelowAt(mem, s, p, a, c, x, y, b, g);
    OtherKid(mem, root, s, p, a, c, x, y);
    MayBeExchanged(mem, p, a, c, x, y, g, t);
    Neighbours(mem, s, a, b, t);
  }

  lemma {:induction false} OtherKid(mem: Memory, root: int, s: Shape, p: Path, a: int, c: int, x: Shape, y: Shape)
    requires TreeIs(mem, root, s) && s == Plug(p, Mk(a, c, x, y)) && ApartPath(p) && Apart(Mk(a, c, x, y))
      && 0 <= c <= 1
    requires a in mem && mem[a].kid0 != 0 && mem[a].kid1 != 0
    ensures y.Fork?
  {
    hide Rep, Balanced, Height, Mk;
    MkIds(a, c, x, y);
    PlugRep(mem, root, p, Mk(a, c, x, y));
    RepMk(mem, a, c, x, y, Holder(p), Side(p));
  }

  lemma {:induction false} ExchangedTree(mem: Memory, root: int, s: Shape, mem': Memory, root': int, a: int, b: int,
                                         t: int)
    requires TreeIs(mem, root, s) && a in mem && b in mem && MayExchange(mem, s, a, b, t) && Spread(mem, a, b, t)
    requires mem' == Exchanged(mem, a, b, t) && root' == if mem[a].parent == 0 then b else root
    ensures TreeIs(mem', root', Rename(s, a, b, t)) && t in mem'
    ensures (mem[b].kid0 == 0 || mem[b].kid1 == 0) ==> (mem'[t].kid0 == 0 || mem'[t].kid1 == 0)
  {
    hide Rep, Rename, Balanced, Exchanged;
    ExchangeRenames(mem, s, a, b, t);
    ExchangedOwn(mem, a, b, t);
    TopParent(mem, s, a);
  }

  lemma {:induction false} TopParent(mem: Memory, s: Shape, a: int)
    requires Rep(mem, s, 0, 0) && Apart(s) && a in Ids(s) && a in mem
    ensures mem[a].parent == 0 <==> a == Top(s)
  {
    LinksAgree(mem, s, 0, 0, a);
    TopIsIn(s);
  }

  lemma RenamedOrder(keys: map<int, int>, s: Shape, a: int, b: int, t: int, c: int)
    requires Apart(s) && a in Ids(s) && b in Ids(s) && t !in Ids(s) && t > 0 && a != b
    requires Follows(Line(s, c), a, b) && 0 <= c <= 1
    ensures t in Ids(Rename(s, a, b, t))
    ensures Size(Rename(s, a, b, t)) == Size(s)
    ensures Line(Rename(s, a, b, t), 1) == RenLine(Line(s, 1), a, b, t)
  {
    RenamedIds(s, a, b, t, t);
    IdsPositive(s, b);
    RenamedShape(s, a, b, t);
    RenamedLine(s, a, b, t, 1);
  }

  /** Removing the stack node from the exchanged tree has removed node a from the first one. */
  lemma {:induction false} AfterExchange(keys: map<int, int>, s: Shape, r: Shape, a: int, b: int, t: int, c: int)
    requires Apart(s) && a in Ids(s) && b in Ids(s) && t !in Ids(s) && t > 0 && a != b && 0 <= c <= 1
    requires Follows(Line(s, c), a, b) && Ascending(keys, Line(s, 1))
    requires Dropped(RenLine(Line(s, 1), a, b, t), t, Line(r, 1)) && Ids(r) == Ids(Rename(s, a, b, t)) - {t}
    ensures Dropped(Line(s, 1), a, Line(r, 1)) && Ids(r) == Ids(s) - {a}
  {
    hide Line, Ids, Rename, Apart, Ascending, Follows, Dropped;
    forall x: int ensures x in Ids(r) <==> x in Ids(s) && x != a {
      RenamedIds(s, a, b, t, x);
    }
    LineIds(s, 1, t);
    var i, j := Adjacent(s, a, b, c);
    DroppedRenamed(keys, Line(s, 1), a, b, t, i, j, Line(r, 1));
  }

  lemma Adjacent(s: Shape, a: int, b: int, c: int) returns (i: nat, j: nat)
    requires Follows(Line(s, c), a, b) && 0 <= c <= 1 && b in Ids(s) && Apart(s)
    ensures i < |Line(s, 1)| && j < |Line(s, 1)| && Line(s, 1)[i] == a && Line(s, 1)[j] == b
    ensures if c == 1 then j == i + 1 else i == j + 1
  {
    IdsPositive(s, b);
    var k: nat :| FollowsAt(Line(s, c), k, a, b);
    LineSize(s, c);
    if c == 1 {
      i, j := k, k + 1;
    } else {
      LineReversed(s, k);
      LineReversed(s, k + 1);
      i, j := Size(s) - 1 - k, Size(s) - 2 - k;
    }
  }

  lemma {:induction false} DroppedRenamed(keys: map<int, int>, line: seq<int>, a: int, b: int, t: int, i: nat, j: nat,
                                          line': seq<int>)
    requires Ascending(keys, line) && i < |line| && j < |line| && line[i] == a && line[j] == b && t !in line && a != b
    requires j == i + 1 || i == j + 1
    requires Dropped(RenLine(line, a, b, t), t, line')
    ensures Dropped(line, a, line')
  {
    var r := RenLine(line, a, b, t);
    var k: nat :| DroppedAt(r, k, t, line');
    assert line[k] == b && k == j;
    assert forall x: nat :: x < |line| && line[x] == a ==> x == i;
    assert forall x: nat :: x < |line| && line[x] == b ==> x == j;
    DropShift(line, r, a, b, t, i, j);
    assert DroppedAt(line, i, a, line');
  }

  lemma {:induction false} DropShift(line: seq<int>, r: seq<int>, a: int, b: int, t: int, i: nat, j: nat)
    requires i < |line| && j < |line| && (j == i + 1 || i == j + 1) && |r| == |line|
    requires forall x: nat :: x < |line| ==> r[x] == (if x == i then b else if x == j then t else line[x])
    requires line[i] == a && line[j] == b
    ensures r[..j] + r[j + 1..] == line[..i] + line[i + 1..]
  {
    var got, want := r[..j] + r[j + 1..], line[..i] + line[i + 1..];
    forall x: nat | x < |want| ensures got[x] == want[x] {
      var gx, wx := if x < j then x else x + 1, if x < i then x else x + 1;
      assert got[x] == r[gx] && want[x] == line[wx];
    }
  }

  lemma {:induction false} AscendingDropped(keys: map<int, int>, line: seq<int>, x: int, line': seq<int>)
    requires Ascending(keys, line) && Dropped(line, x, line')
    ensures Ascending(keys, line')
  {
    var i: nat :| DroppedAt(line, i, x, line');
    assert forall k: nat :: k < |line'| ==> line'[k] == line[if k < i then k else k + 1];
  }
}
