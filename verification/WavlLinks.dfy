module WavlLinks {

  // The address of a tree node. What the struct at that address holds is in
  // the memory, see Links.
  class Node {
    constructor () {
    }
  }

  datatype Cell = Cell(parent: Node?, left: Node?, right: Node?, rank: nat) {
    function Child(isRight: bool): Node? {
      if isRight then right else left
    }
    function WithChild(isRight: bool, c: Node?): Cell {
      if isRight then this.(right := c) else this.(left := c)
    }
  }

  datatype Span = Span(lo: nat, pos: nat, hi: nat)

  datatype Layout = Layout(order: seq<Node>, span: map<Node, Span>)

  datatype Links = Links(root: Node?, at: map<Node, Cell>) {
    function At(n: Node): Cell {
      if n in at then at[n] else Cell(null, null, null, 0)
    }
    function SetParent(n: Node, p: Node?): Links {
      this.(at := at[n := At(n).(parent := p)])
    }
    function SetChild(n: Node, isRight: bool, c: Node?): Links {
      this.(at := at[n := At(n).WithChild(isRight, c)])
    }
    function SetRank(n: Node, r: nat): Links {
      this.(at := at[n := At(n).(rank := r)])
    }
    function Rank(n: Node?): nat {
      if n == null then 0 else At(n).rank
    }
    function LinkNode(p: Node, isRight: bool, c: Node?): Links {
      var s := SetChild(p, isRight, c);
      if c == null then s else s.SetParent(c, p)
    }
    predicate IsRight(n: Node) {
      At(n).parent != null && At(At(n).parent).right == n
    }
    function MoveNode(oldNode: Node, newNode: Node?): Links {
      var p := At(oldNode).parent;
      var s := if p == null then this.(root := newNode) else SetChild(p, IsRight(oldNode), newNode);
      var s := if newNode == null then s else s.SetParent(newNode, p);
      s.SetParent(oldNode, null)
    }
    function Rotate(up: Node, down: Node, upWasRight: bool): Links {
      var sub := At(up).Child(!upWasRight);
      MoveNode(down, up).LinkNode(down, upWasRight, sub).LinkNode(up, !upWasRight, down)
    }
    function Replace(x: Node, e: Node): Links {
      var c := At(x);
      LinkNode(e, false, c.left).LinkNode(e, true, c.right).SetRank(e, c.rank).MoveNode(x, e)
    }
    function LinkLeaf(x: Node, p: Node?, d: bool): Links {
      var s := this.(at := at[x := Cell(p, null, null, 1)]);
      if p == null then s.(root := x) else s.SetChild(p, d, x)
    }
  }

  // c is either absent, and then no position is between lo and hi, or it is a
  // child of p that occupies exactly the positions from lo up to hi.
  ghost predicate ChildOk(s: Links, y: Layout, p: Node, c: Node?, lo: nat, hi: nat) {
    if c == null then lo == hi
    else c in s.at && c in y.span && s.at[c].parent == p && y.span[c].lo == lo && y.span[c].hi == hi
  }

  ghost predicate SideOk(s: Links, y: Layout, n: Node, d: bool)
    requires n in s.at && n in y.span
  {
    var c, i := s.at[n].Child(d), y.span[n];
    if d then ChildOk(s, y, n, c, i.pos + 1, i.hi) else ChildOk(s, y, n, c, i.lo, i.pos)
  }

  ghost predicate ParentOk(s: Links, y: Layout, n: Node, p: Node?)
    requires n in y.span
  {
    if p == null then s.root == n && y.span[n].lo == 0 && y.span[n].hi == |y.order|
    else p in s.at && p in y.span && (s.at[p].left == n || s.at[p].right == n)
  }

  ghost predicate LinkedAt(s: Links, y: Layout, n: Node)
    requires n in s.at && n in y.span
  {
    var c, i := s.at[n], y.span[n];
    && i.lo <= i.pos < i.hi <= |y.order|
    && y.order[i.pos] == n
    && SideOk(s, y, n, false)
    && SideOk(s, y, n, true)
    && ParentOk(s, y, n, c.parent)
  }

  ghost predicate Linked(s: Links, y: Layout) {
    && y.span.Keys <= s.at.Keys
    && (s.root == null ==> y.order == [])
    && (s.root != null ==> s.root in y.span && s.at[s.root].parent == null)
    && (forall i :: 0 <= i < |y.order| ==> y.order[i] in y.span && y.span[y.order[i]].pos == i)
    && (forall n {:trigger LinkedAt(s, y, n)} :: n in y.span ==> LinkedAt(s, y, n))
  }

  ghost function RotateLayout(y: Layout, up: Node, down: Node, upWasRight: bool): Layout
    requires up in y.span && down in y.span
  {
    var u, d := y.span[up], y.span[down];
    y.(span := y.span[up := Span(d.lo, u.pos, d.hi)]
                     [down := if upWasRight then Span(d.lo, d.pos, u.pos) else Span(u.pos + 1, d.pos, d.hi)])
  }

  // The nodes that a rotation touches are all different.
  lemma RotateDistinct(s: Links, y: Layout, up: Node, down: Node, d: bool)
    requires Linked(s, y)
    requires up in y.span && down in y.span && s.at[down].Child(d) == up
    ensures LinkedAt(s, y, up) && LinkedAt(s, y, down)
    ensures up != down && s.at[up].parent == down
    ensures var sub, gp := s.at[up].Child(!d), s.at[down].parent;
      && sub != up && sub != down && gp != up && gp != down
      && (sub != null ==> sub in y.span && s.at[sub].parent == up && sub != gp)
      && (gp != null ==> gp in y.span && (s.at[gp].left == down) != (s.at[gp].right == down))
  {
    assert LinkedAt(s, y, up) && LinkedAt(s, y, down);
    var sub, gp := s.at[up].Child(!d), s.at[down].parent;
    if gp != null {
      assert LinkedAt(s, y, gp);
    }
  }

  ghost predicate Rotated(s: Links, s': Links, up: Node, down: Node, d: bool)
    requires up in s.at && down in s.at
  {
    var sub, gp := s.at[up].Child(!d), s.at[down].parent;
    && s'.at.Keys == s.at.Keys
    && s'.at[up] == Cell(gp, if d then down else s.at[up].left, if d then s.at[up].right else down, s.at[up].rank)
    && s'.at[down] == Cell(up, if d then s.at[down].left else sub, if d then sub else s.at[down].right, s.at[down].rank)
    && (sub != null && sub in s.at ==> s'.at[sub] == s.at[sub].(parent := down))
    && (gp != null && gp in s.at ==> s'.at[gp] == s.at[gp].WithChild(s.at[gp].right == down, up))
    && (forall n :: n in s.at && n != up && n != down && n != sub && n != gp ==> s'.at[n] == s.at[n])
    && s'.root == if gp == null then up else s.root
  }

  lemma RotateCells(s: Links, y: Layout, up: Node, down: Node, d: bool)
    requires Linked(s, y)
    requires up in y.span && down in y.span && s.at[down].Child(d) == up
    ensures LinkedAt(s, y, up) && LinkedAt(s, y, down)
    ensures Rotated(s, s.Rotate(up, down, d), up, down, d)
  {
    RotateDistinct(s, y, up, down, d);
  }

  lemma RotateUp(s: Links, y: Layout, s': Links, up: Node, down: Node, d: bool)
    requires Linked(s, y)
    requires up in y.span && down in y.span && s.at[down].Child(d) == up
    requires Rotated(s, s', up, down, d)
    ensures LinkedAt(s', RotateLayout(y, up, down, d), up)
  {
    RotateDistinct(s, y, up, down, d);
    var outer := s.at[up].Child(d);
    assert outer != null ==> LinkedAt(s, y, outer);
  }

  lemma RotateDown(s: Links, y: Layout, s': Links, up: Node, down: Node, d: bool)
    requires Linked(s, y)
    requires up in y.span && down in y.span && s.at[down].Child(d) == up
    requires Rotated(s, s', up, down, d)
    ensures LinkedAt(s', RotateLayout(y, up, down, d), down)
  {
    RotateDistinct(s, y, up, down, d);
    var other := s.at[down].Child(!d);
    assert other != null ==> LinkedAt(s, y, other);
    hide Linked;
  }

  lemma RotateSub(s: Links, y: Layout, s': Links, up: Node, down: Node, d: bool)
    requires Linked(s, y)
    requires up in y.span && down in y.span && s.at[down].Child(d) == up
    requires Rotated(s, s', up, down, d)
    ensures var sub := s.at[up].Child(!d);
      sub != null ==> sub in y.span && LinkedAt(s', RotateLayout(y, up, down, d), sub)
  {
    RotateDistinct(s, y, up, down, d);
    var sub := s.at[up].Child(!d);
    if sub != null {
      assert LinkedAt(s, y, sub);
      RotateChildren(s, y, s', up, down, d, sub);
    }
  }

  // The spans of a node after a rotation: up takes over that of down.
  lemma RotatedSpan(y: Layout, up: Node, down: Node, d: bool, n: Node)
    requires up in y.span && down in y.span && up != down && n in y.span && n != up && n != down
    ensures var y' := RotateLayout(y, up, down, d);
      && y'.order == y.order && n in y'.span && y'.span[n] == y.span[n]
      && up in y'.span && y'.span[up] == Span(y.span[down].lo, y.span[up].pos, y.span[down].hi)
  {
  }

  lemma RotateGrandparentSide(s: Links, y: Layout, s': Links, up: Node, down: Node, d: bool, e: bool)
    requires Linked(s, y)
    requires up in y.span && down in y.span && s.at[down].Child(d) == up
    requires Rotated(s, s', up, down, d)
    ensures var gp := s.at[down].parent;
      gp != null ==> gp in y.span && SideOk(s', RotateLayout(y, up, down, d), gp, e)
  {
    hide RotateLayout;
    RotateDistinct(s, y, up, down, d);
    var gp := s.at[down].parent;
    if gp != null {
      assert LinkedAt(s, y, gp);
      RotatedSpan(y, up, down, d, gp);
      var c := s.at[gp].Child(e);
      if c != null {
        assert LinkedAt(s, y, c);
        if c != down {
          RotatedSpan(y, up, down, d, c);
        }
      }
    }
  }

  lemma RotateGrandparent(s: Links, y: Layout, s': Links, up: Node, down: Node, d: bool)
    requires Linked(s, y)
    requires up in y.span && down in y.span && s.at[down].Child(d) == up
    requires Rotated(s, s', up, down, d)
    ensures var gp := s.at[down].parent;
      gp != null ==> gp in y.span && LinkedAt(s', RotateLayout(y, up, down, d), gp)
  {
    hide SideOk;
    RotateDistinct(s, y, up, down, d);
    RotateGrandparentSide(s, y, s', up, down, d, false);
    RotateGrandparentSide(s, y, s', up, down, d, true);
    var gp := s.at[down].parent;
    if gp != null {
      assert LinkedAt(s, y, gp);
      var p := s.at[gp].parent;
      assert p != null ==> LinkedAt(s, y, p);
    }
  }

  // A child of a node that keeps its children keeps its place.
  lemma RotateChildren(s: Links, y: Layout, s': Links, up: Node, down: Node, d: bool, n: Node)
    requires Linked(s, y)
    requires up in y.span && down in y.span && s.at[down].Child(d) == up
    requires Rotated(s, s', up, down, d)
    requires n in y.span && n != up && n != down && n != s.at[down].parent
    ensures LinkedAt(s, y, n)
    ensures var y' := RotateLayout(y, up, down, d);
      && s'.at[n].left == s.at[n].left && s'.at[n].right == s.at[n].right
      && SideOk(s', y', n, false) && SideOk(s', y', n, true)
  {
    RotateDistinct(s, y, up, down, d);
    assert LinkedAt(s, y, n);
  }

  lemma RotateOther(s: Links, y: Layout, s': Links, up: Node, down: Node, d: bool, n: Node)
    requires Linked(s, y)
    requires up in y.span && down in y.span && s.at[down].Child(d) == up
    requires Rotated(s, s', up, down, d)
    requires n in y.span && n != up && n != down && n != s.at[up].Child(!d) && n != s.at[down].parent
    ensures LinkedAt(s', RotateLayout(y, up, down, d), n)
  {
    RotateChildren(s, y, s', up, down, d, n);
    RotateDistinct(s, y, up, down, d);
    var p := s.at[n].parent;
    assert p != null ==> LinkedAt(s, y, p);
  }

  lemma RotateLinked(s: Links, y: Layout, s': Links, up: Node, down: Node, d: bool)
    requires Linked(s, y)
    requires up in y.span && down in y.span && s.at[down].Child(d) == up
    requires Rotated(s, s', up, down, d)
    ensures Linked(s', RotateLayout(y, up, down, d))
  {
    hide LinkedAt;
    RotateDistinct(s, y, up, down, d);
    var y' := RotateLayout(y, up, down, d);
    RotateUp(s, y, s', up, down, d);
    RotateDown(s, y, s', up, down, d);
    RotateSub(s, y, s', up, down, d);
    RotateGrandparent(s, y, s', up, down, d);
    forall n | n in y'.span
      ensures LinkedAt(s', y', n)
    {
      if n != up && n != down && n != s.at[up].Child(!d) && n != s.at[down].parent {
        RotateOther(s, y, s', up, down, d, n);
      }
    }
  }

  // ---------- linking and unlinking ----------

  function ShiftUp(i: Span, p: nat, k: nat): Span {
    Span(if i.lo > p then i.lo + 1 else i.lo, if i.pos >= k then i.pos + 1 else i.pos, if i.hi > p then i.hi + 1 else i.hi)
  }

  // The new leaf x takes the position directly before (d false) or directly
  // behind (d true) its parent p.
  ghost function LeafLayout(y: Layout, x: Node, p: Node, d: bool): Layout
    requires p in y.span && y.span[p].pos < |y.order|
  {
    var i := y.span[p].pos;
    var k := if d then i + 1 else i;
    Layout(y.order[..k] + [x] + y.order[k..],
           (map n | n in y.span :: ShiftUp(y.span[n], i, k))[x := Span(k, k, k + 1)])
  }

  function ShiftDown(i: Span, k: nat): Span {
    Span(if i.lo > k then i.lo - 1 else i.lo, if i.pos > k then i.pos - 1 else i.pos, if i.hi > k then i.hi - 1 else i.hi)
  }

  ghost function RemoveLayout(y: Layout, x: Node): Layout
    requires x in y.span && y.span[x].pos < |y.order|
  {
    var k := y.span[x].pos;
    Layout(y.order[..k] + y.order[k + 1..], map n | n in y.span && n != x :: ShiftDown(y.span[n], k))
  }

  ghost predicate Moved(s: Links, s': Links, x: Node, c: Node?)
    requires x in s.at
  {
    var p := s.at[x].parent;
    && s'.at.Keys == s.at.Keys
    && s'.at[x] == s.at[x].(parent := null)
    && (c != null && c in s.at ==> s'.at[c] == s.at[c].(parent := p))
    && (p != null && p in s.at ==> s'.at[p] == s.at[p].WithChild(s.at[p].right == x, c))
    && (forall n :: n in s.at && n != x && n != c && n != p ==> s'.at[n] == s.at[n])
    && s'.root == if p == null then c else s.root
  }

  lemma UnlinkDistinct(s: Links, y: Layout, x: Node, d: bool)
    requires Linked(s, y)
    requires x in y.span && s.at[x].Child(!d) == null
    ensures LinkedAt(s, y, x)
    ensures var c, p := s.at[x].Child(d), s.at[x].parent;
      && c != x && p != x && (c != null ==> c in y.span && s.at[c].parent == x && c != p)
      && (p != null ==> p in y.span && (s.at[p].left == x) != (s.at[p].right == x))
  {
    assert LinkedAt(s, y, x);
    var c, p := s.at[x].Child(d), s.at[x].parent;
    if p != null {
      assert LinkedAt(s, y, p);
    }
  }

  lemma UnlinkCells(s: Links, y: Layout, x: Node, d: bool)
    requires Linked(s, y)
    requires x in y.span && s.at[x].Child(!d) == null
    ensures LinkedAt(s, y, x)
    ensures Moved(s, s.MoveNode(x, s.at[x].Child(d)), x, s.at[x].Child(d))
  {
    UnlinkDistinct(s, y, x, d);
  }

  lemma RemovedOrder(s: Links, y: Layout, x: Node)
    requires Linked(s, y) && x in y.span
    ensures LinkedAt(s, y, x)
    ensures var y' := RemoveLayout(y, x);
      && (forall i :: 0 <= i < |y'.order| ==> y'.order[i] in y'.span && y'.span[y'.order[i]].pos == i)
      && (forall n :: n in y'.span ==> y'.span[n].pos < |y'.order| && y'.order[y'.span[n].pos] == n)
  {
    assert LinkedAt(s, y, x);
    var k, y' := y.span[x].pos, RemoveLayout(y, x);
    forall n | n in y'.span
      ensures y'.span[n].pos < |y'.order| && y'.order[y'.span[n].pos] == n
    {
      assert LinkedAt(s, y, n);
    }
    forall i | 0 <= i < |y'.order|
      ensures y'.order[i] in y'.span && y'.span[y'.order[i]].pos == i
    {
      assert y'.order[i] == y.order[if i < k then i else i + 1];
    }
  }

  lemma UnlinkSideOther(s: Links, y: Layout, s': Links, x: Node, d: bool, n: Node, e: bool)
    requires Linked(s, y)
    requires x in y.span && s.at[x].Child(!d) == null
    requires Moved(s, s', x, s.at[x].Child(d))
    requires n in y.span && n != x && s.at[n].Child(e) != x
    ensures LinkedAt(s, y, x) && SideOk(s', RemoveLayout(y, x), n, e)
  {
    UnlinkDistinct(s, y, x, d);
    assert LinkedAt(s, y, n);
    var l := s.at[n].Child(e);
    if l != null {
      assert LinkedAt(s, y, l);
    }
    hide Linked;
    UnlinkSideKept(s, y, s', x, d, n, e);
  }

  lemma UnlinkSideKept(s: Links, y: Layout, s': Links, x: Node, d: bool, n: Node, e: bool)
    requires x in s.at && n in s.at && x in y.span && n in y.span && LinkedAt(s, y, x) && LinkedAt(s, y, n)
    requires s.at[x].Child(!d) == null
    requires Moved(s, s', x, s.at[x].Child(d))
    requires n != x && s.at[n].Child(e) != x
    requires var l := s.at[n].Child(e);
      l != null ==> l in s.at && l in y.span && LinkedAt(s, y, l) && l != s.at[x].Child(d)
    ensures SideOk(s', RemoveLayout(y, x), n, e)
  {
    var l := s.at[n].Child(e);
    if l != null {
      assert s'.at[n].Child(e) == l && s'.at[l].parent == n;
    } else {
      assert s'.at[n].Child(e) == null;
    }
  }

  lemma UnlinkSide(s: Links, y: Layout, s': Links, x: Node, d: bool, n: Node, e: bool)
    requires Linked(s, y)
    requires x in y.span && s.at[x].Child(!d) == null
    requires Moved(s, s', x, s.at[x].Child(d))
    requires n in y.span && n != x
    ensures LinkedAt(s, y, x) && SideOk(s', RemoveLayout(y, x), n, e)
  {
    UnlinkDistinct(s, y, x, d);
    if s.at[n].Child(e) == x {
      assert LinkedAt(s, y, n);
      assert s'.at[n].Child(e) == s.at[x].Child(d);
    } else {
      UnlinkSideOther(s, y, s', x, d, n, e);
    }
  }

  // The span of a node once x is unlinked.
  lemma RemovedSpan(s: Links, y: Layout, x: Node, n: Node)
    requires Linked(s, y)
    requires x in y.span && n in y.span && n != x
    ensures LinkedAt(s, y, x)
    ensures var y', k := RemoveLayout(y, x), y.span[x].pos;
      |y'.order| == |y.order| - 1 && n in y'.span && y'.span[n] == ShiftDown(y.span[n], k)
  {
    assert LinkedAt(s, y, x);
  }

  lemma UnlinkParent(s: Links, y: Layout, s': Links, x: Node, d: bool, n: Node)
    requires Linked(s, y)
    requires x in y.span && s.at[x].Child(!d) == null
    requires Moved(s, s', x, s.at[x].Child(d))
    requires n in y.span && n != x
    ensures LinkedAt(s, y, x)
    ensures var y' := RemoveLayout(y, x); |y'.order| == |y.order| - 1 && ParentOk(s', y', n, s'.at[n].parent)
  {
    hide RemoveLayout;
    UnlinkDistinct(s, y, x, d);
    RemovedSpan(s, y, x, n);
    assert LinkedAt(s, y, n);
    var p := s.at[n].parent;
    if p != null {
      assert LinkedAt(s, y, p);
      if p != x {
        RemovedSpan(s, y, x, p);
      } else if s.at[x].parent != null {
        RemovedSpan(s, y, x, s.at[x].parent);
      }
    }
  }

  lemma UnlinkLinked(s: Links, y: Layout, s': Links, x: Node, d: bool)
    requires Linked(s, y)
    requires x in y.span && s.at[x].Child(!d) == null
    requires Moved(s, s', x, s.at[x].Child(d))
    ensures LinkedAt(s, y, x) && Linked(s', RemoveLayout(y, x))
  {
    RemovedOrder(s, y, x);
    UnlinkDistinct(s, y, x, d);
    var y' := RemoveLayout(y, x);
    hide ParentOk;
    hide SideOk;
    forall n | n in y'.span
      ensures LinkedAt(s', y', n)
    {
      assert LinkedAt(s, y, n);
      UnlinkSide(s, y, s', x, d, n, false);
      UnlinkSide(s, y, s', x, d, n, true);
      UnlinkParent(s, y, s', x, d, n);
    }
  }

  // ---------- substituting one node for another ----------

  ghost function ReplaceLayout(y: Layout, x: Node, e: Node): Layout
    requires x in y.span && y.span[x].pos < |y.order|
  {
    Layout(y.order[y.span[x].pos := e], (map n | n in y.span && n != x :: y.span[n])[e := y.span[x]])
  }

  ghost predicate Replaced(s: Links, s': Links, x: Node, e: Node)
    requires x in s.at && e in s.at
  {
    var p, l, r := s.at[x].parent, s.at[x].left, s.at[x].right;
    && s'.at.Keys == s.at.Keys
    && s'.at[e] == s.at[x]
    && s'.at[x] == s.at[x].(parent := null)
    && (l != null && l in s.at ==> s'.at[l] == s.at[l].(parent := e))
    && (r != null && r in s.at ==> s'.at[r] == s.at[r].(parent := e))
    && (p != null && p in s.at ==> s'.at[p] == s.at[p].WithChild(s.at[p].right == x, e))
    && (forall n :: n in s.at && n != x && n != e && n != p && n != l && n != r ==> s'.at[n] == s.at[n])
    && s'.root == if p == null then e else s.root
  }

  lemma ReplaceDistinct(s: Links, y: Layout, x: Node, e: Node)
    requires Linked(s, y)
    requires x in y.span && e in s.at && e !in y.span
    ensures LinkedAt(s, y, x)
    ensures var p, l, r := s.at[x].parent, s.at[x].left, s.at[x].right;
      && (l != null ==> l in y.span && l != x && l != p && s.at[l].parent == x && l != r)
      && (r != null ==> r in y.span && r != x && r != p && s.at[r].parent == x)
      && (p != null ==> p in y.span && p != x && (s.at[p].left == x) != (s.at[p].right == x))
  {
    assert LinkedAt(s, y, x);
    var p := s.at[x].parent;
    if p != null {
      assert LinkedAt(s, y, p);
    }
  }

  lemma ReplaceCells(s: Links, y: Layout, x: Node, e: Node)
    requires Linked(s, y)
    requires x in y.span && e in s.at && e !in y.span
    ensures LinkedAt(s, y, x) && s.at[x].left != x && s.at[x].right != x
    ensures Replaced(s, s.Replace(x, e), x, e)
  {
    ReplaceDistinct(s, y, x, e);
  }

  lemma ReplaceSideUp(s: Links, y: Layout, s': Links, x: Node, e: Node, d: bool)
    requires Linked(s, y)
    requires x in y.span && e in s.at && e !in y.span
    requires Replaced(s, s', x, e)
    ensures LinkedAt(s, y, x) && SideOk(s', ReplaceLayout(y, x, e), e, d)
  {
    ReplaceDistinct(s, y, x, e);
    var c := s.at[x].Child(d);
    assert c != null ==> LinkedAt(s, y, c);
  }

  lemma ReplaceSide(s: Links, y: Layout, s': Links, x: Node, e: Node, n: Node, d: bool)
    requires Linked(s, y)
    requires x in y.span && e in s.at && e !in y.span
    requires Replaced(s, s', x, e)
    requires n == e || (n in y.span && n != x)
    ensures LinkedAt(s, y, x) && SideOk(s', ReplaceLayout(y, x, e), n, d)
  {
    ReplaceDistinct(s, y, x, e);
    if n == e {
      ReplaceSideUp(s, y, s', x, e, d);
      hide Linked, Replaced, ReplaceLayout;
    } else {
      assert LinkedAt(s, y, n);
      var c := s.at[n].Child(d);
      assert s.at[n].left != null ==> s.at[s.at[n].left].parent == n;
      assert s.at[n].right != null ==> s.at[s.at[n].right].parent == n;
      if c == x {
        assert s'.at[n].Child(d) == e;
      } else if c != null {
        assert LinkedAt(s, y, c);
        assert s'.at[n].Child(d) == c && s'.at[c].parent == n;
      } else {
        assert s'.at[n].Child(d) == null;
      }
      hide Linked;
    }
  }

  // The span of a node once e has taken the place of x.
  lemma ReplacedSpan(s: Links, y: Layout, x: Node, e: Node, n: Node)
    requires Linked(s, y)
    requires x in y.span && e !in y.span && (n == e || (n in y.span && n != x))
    ensures LinkedAt(s, y, x)
    ensures var y' := ReplaceLayout(y, x, e);
      |y'.order| == |y.order| && n in y'.span && y'.span[n] == y.span[if n == e then x else n]
  {
    assert LinkedAt(s, y, x);
  }

  lemma ReplaceParent(s: Links, y: Layout, s': Links, x: Node, e: Node, n: Node)
    requires Linked(s, y)
    requires x in y.span && e in s.at && e !in y.span
    requires Replaced(s, s', x, e)
    requires n == e || (n in y.span && n != x)
    ensures LinkedAt(s, y, x) && ParentOk(s', ReplaceLayout(y, x, e), n, s'.at[n].parent)
  {
    hide SideOk, ReplaceLayout;
    ReplaceDistinct(s, y, x, e);
    var m := if n == e then x else n;
    assert LinkedAt(s, y, m);
    ReplacedSpan(s, y, x, e, n);
    var p := s.at[m].parent;
    if p != null {
      assert LinkedAt(s, y, p);
      ReplacedSpan(s, y, x, e, if p == x then e else p);
    }
  }

  lemma ReplaceAt(s: Links, y: Layout, s': Links, x: Node, e: Node, n: Node)
    requires Linked(s, y)
    requires x in y.span && e in s.at && e !in y.span
    requires Replaced(s, s', x, e)
    requires n == e || (n in y.span && n != x)
    ensures LinkedAt(s, y, x) && LinkedAt(s', ReplaceLayout(y, x, e), n)
  {
    ReplaceDistinct(s, y, x, e);
    assert LinkedAt(s, y, if n == e then x else n);
    ReplaceSide(s, y, s', x, e, n, false);
    ReplaceSide(s, y, s', x, e, n, true);
    ReplaceParent(s, y, s', x, e, n);
    hide ParentOk;
    hide SideOk;
    hide Linked;
  }

  lemma ReplaceOrder(s: Links, y: Layout, x: Node, e: Node)
    requires Linked(s, y) && x in y.span && e !in y.span
    ensures LinkedAt(s, y, x)
    ensures var y' := ReplaceLayout(y, x, e);
      forall i :: 0 <= i < |y'.order| ==> y'.order[i] in y'.span && y'.span[y'.order[i]].pos == i
  {
    assert LinkedAt(s, y, x);
  }

  lemma ReplaceDomain(s: Links, y: Layout, s': Links, x: Node, e: Node)
    requires Linked(s, y)
    requires x in y.span && e in s.at && e !in y.span
    requires Replaced(s, s', x, e)
    ensures LinkedAt(s, y, x)
    ensures var y' := ReplaceLayout(y, x, e);
      && y'.span.Keys == y.span.Keys - {x} + {e} && y'.span.Keys <= s'.at.Keys
      && s'.root != null && s'.root in y'.span && s'.at[s'.root].parent == null
  {
    ReplaceDistinct(s, y, x, e);
  }

  lemma ReplaceLinked(s: Links, y: Layout, s': Links, x: Node, e: Node)
    requires Linked(s, y)
    requires x in y.span && e in s.at && e !in y.span
    requires Replaced(s, s', x, e)
    ensures LinkedAt(s, y, x) && Linked(s', ReplaceLayout(y, x, e))
  {
    ReplaceDomain(s, y, s', x, e);
    ReplaceOrder(s, y, x, e);
    var y' := ReplaceLayout(y, x, e);
    hide LinkedAt, Replaced, ReplaceLayout;
    forall n | n in y'.span
      ensures LinkedAt(s', y', n)
    {
      ReplaceAt(s, y, s', x, e, n);
    }
  }

  // ---------- linking a new leaf ----------

  lemma LinkLeafOrder(s: Links, y: Layout, x: Node, p: Node, d: bool)
    requires Linked(s, y) && x !in y.span && p in y.span
    ensures LinkedAt(s, y, p)
    ensures var y' := LeafLayout(y, x, p, d);
      && (forall i :: 0 <= i < |y'.order| ==> y'.order[i] in y'.span && y'.span[y'.order[i]].pos == i)
      && (forall n :: n in y'.span ==> y'.span[n].pos < |y'.order| && y'.order[y'.span[n].pos] == n)
  {
    assert LinkedAt(s, y, p);
    var y' := LeafLayout(y, x, p, d);
    var k := y'.span[x].pos;
    forall n | n in y'.span
      ensures y'.span[n].pos < |y'.order| && y'.order[y'.span[n].pos] == n
    {
      if n != x {
        assert LinkedAt(s, y, n);
      }
    }
    forall i | 0 <= i < |y'.order|
      ensures y'.order[i] in y'.span && y'.span[y'.order[i]].pos == i
    {
      assert i != k ==> y'.order[i] == y.order[if i < k then i else i - 1];
    }
  }

  // The fields and the span of a node once x is linked.
  lemma LeafCell(s: Links, y: Layout, x: Node, p: Node, d: bool, n: Node)
    requires Linked(s, y)
    requires x !in y.span && p in y.span && s.at[p].Child(d) == null && n in y.span
    ensures LinkedAt(s, y, p) && n in s.at
    ensures var s', y', i := s.LinkLeaf(x, p, d), LeafLayout(y, x, p, d), y.span[p].pos;
      var k := if d then i + 1 else i;
      && n in s'.at && s'.at[n] == (if n == p then s.at[p].WithChild(d, x) else s.at[n])
      && n in y'.span && y'.span[n] == ShiftUp(y.span[n], i, k)
      && x in s'.at && s'.at[x] == Cell(p, null, null, 1) && x in y'.span && y'.span[x] == Span(k, k, k + 1)
  {
    assert LinkedAt(s, y, p);
  }

  lemma LinkLeafSide(s: Links, y: Layout, x: Node, p: Node, d: bool, n: Node, e: bool)
    requires Linked(s, y)
    requires x !in y.span && p in y.span && s.at[p].Child(d) == null
    requires n in y.span
    ensures LinkedAt(s, y, p)
    ensures var s', y' := s.LinkLeaf(x, p, d), LeafLayout(y, x, p, d);
      n in s'.at && n in y'.span && SideOk(s', y', n, e)
  {
    hide Links.LinkLeaf, LeafLayout, ParentOk;
    assert LinkedAt(s, y, n);
    LeafCell(s, y, x, p, d, n);
    var c := s.at[n].Child(e);
    if c != null {
      assert LinkedAt(s, y, c);
      LeafCell(s, y, x, p, d, c);
    }
  }

  lemma LinkLeafParent(s: Links, y: Layout, x: Node, p: Node, d: bool, n: Node)
    requires Linked(s, y)
    requires x !in y.span && p in y.span && s.at[p].Child(d) == null
    requires n in y.span
    ensures var s' := s.LinkLeaf(x, p, d);
      LinkedAt(s, y, p) && ParentOk(s', LeafLayout(y, x, p, d), n, s'.at[n].parent)
  {
    hide Links.LinkLeaf, LeafLayout, SideOk;
    assert LinkedAt(s, y, n);
    LeafCell(s, y, x, p, d, n);
    LeafDomain(s, y, x, p, d);
    var q := s.at[n].parent;
    if q != null {
      assert LinkedAt(s, y, q);
      LeafCell(s, y, x, p, d, q);
    }
  }

  lemma LinkLeafNew(s: Links, y: Layout, x: Node, p: Node, d: bool)
    requires Linked(s, y)
    requires x !in y.span && p in y.span && s.at[p].Child(d) == null
    ensures LinkedAt(s, y, p) && LinkedAt(s.LinkLeaf(x, p, d), LeafLayout(y, x, p, d), x)
  {
    assert LinkedAt(s, y, p);
  }

  lemma LinkLeafAt(s: Links, y: Layout, x: Node, p: Node, d: bool, n: Node)
    requires Linked(s, y)
    requires x !in y.span && p in y.span && s.at[p].Child(d) == null
    requires n in y.span
    ensures LinkedAt(s, y, p) && LinkedAt(s.LinkLeaf(x, p, d), LeafLayout(y, x, p, d), n)
  {
    LinkLeafOrder(s, y, x, p, d);
    assert LinkedAt(s, y, n);
    LinkLeafSide(s, y, x, p, d, n, false);
    LinkLeafSide(s, y, x, p, d, n, true);
    LinkLeafParent(s, y, x, p, d, n);
    hide ParentOk;
    hide SideOk;
    hide Linked;
  }

  lemma LeafDomain(s: Links, y: Layout, x: Node, p: Node, d: bool)
    requires Linked(s, y)
    requires x !in y.span && p in y.span && s.at[p].Child(d) == null
    ensures LinkedAt(s, y, p)
    ensures var s', y' := s.LinkLeaf(x, p, d), LeafLayout(y, x, p, d);
      && s'.root == s.root && s'.root != null && s'.root in y.span && s'.at[s'.root].parent == null
      && |y'.order| == |y.order| + 1 && y'.span.Keys == y.span.Keys + {x} && y'.span.Keys <= s'.at.Keys
  {
    assert LinkedAt(s, y, p);
  }

  lemma LinkLeafLinked(s: Links, y: Layout, x: Node, p: Node, d: bool)
    requires Linked(s, y)
    requires x !in y.span && p in y.span && s.at[p].Child(d) == null
    ensures LinkedAt(s, y, p) && Linked(s.LinkLeaf(x, p, d), LeafLayout(y, x, p, d))
  {
    LinkLeafOrder(s, y, x, p, d);
    LinkLeafNew(s, y, x, p, d);
    var s', y' := s.LinkLeaf(x, p, d), LeafLayout(y, x, p, d);
    LeafDomain(s, y, x, p, d);
    hide LinkedAt, Links.LinkLeaf, LeafLayout;
    forall n | n in y'.span
      ensures LinkedAt(s', y', n)
    {
      if n != x {
        LinkLeafAt(s, y, x, p, d, n);
      }
    }
  }
}
