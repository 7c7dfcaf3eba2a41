module Wavl {
  import opened WavlLinks
  import opened WavlRanks

  // Comparator results along the in-order sequence never go back: first the
  // nodes that x is to the right of, then the ones it collides with, then the
  // ones it is to the left of.
  ghost predicate Consistent(order: seq<Node>, x: Node, cmp: (Node, Node) -> int) {
    forall i, j :: 0 <= i < j < |order| ==>
      && (cmp(order[j], x) > 0 ==> cmp(order[i], x) > 0)
      && (cmp(order[i], x) < 0 ==> cmp(order[j], x) < 0)
  }

  class Tree {
    // The memory: the root pointer and, for each node address, its fields.
    var mem: Links
    // The in-order sequence and the place of every node in it.
    ghost var layout: Layout

    ghost predicate Valid()
      reads this
    {
      IsWavl(mem, layout)
    }

    constructor ()
      ensures Valid() && layout.order == [] && layout.span == map[]
    {
      mem, layout := Links(null, map[]), Layout([], map[]);
    }

    // ---------- insertion ----------

    // Links x where the comparator leads, or refuses when x collides.
    method Insert(x: Node, cmp: (Node, Node) -> int) returns (inserted: bool, ghost k: nat)
      requires Valid() && x !in layout.span
      requires Consistent(layout.order, x, cmp)
      modifies this
      ensures Valid()
      ensures inserted <==> forall n :: n in old(layout.order) ==> cmp(n, x) != 0
      ensures !inserted ==> mem == old(mem) && layout == old(layout)
      ensures inserted ==> Inserted(old(layout), layout, x, cmp, k)
      ensures inserted && old(AvlExcept(mem, layout, null)) ==> AvlExcept(mem, layout, null)
    {
      var s;
      ghost var y;
      inserted, s, y, k := InsertLinks(mem, layout, x, cmp);
      mem, layout := s, y;
    }

    method Delete(node: Node)
      requires Valid() && node in layout.span
      modifies this
      ensures Valid()
      ensures old(layout.span[node].pos < |layout.order|)
      ensures old(layout.order[layout.span[node].pos]) == node
      ensures var k := old(layout.span[node].pos);
        layout.order == old(layout.order)[..k] + old(layout.order)[k + 1..]
      ensures layout.span.Keys == old(layout.span.Keys) - {node}
      ensures node in mem.at && mem.at[node].rank == 0
    {
      hide Linked, LinkedAt, RankedExcept, SameLinks, TurnedDelete, Pow2;
      var s, start, isRight;
      ghost var y, climbs, flat, rotations;
      DescendStep(mem, layout, node);
      s, y, start, isRight := DeleteLinks(mem, layout, node);
      if start != null {
        s, y, climbs, flat, rotations := UpdateRankDelete(s, y, start, isRight);
      }
      mem, layout := s, y;
    }
  }

  // Takes node out of the links. Where it had two children, its neighbour in
  // the order takes its place. The repair then begins at start.
  method DeleteLinks(s0: Links, ghost y0: Layout, node: Node)
    returns (s: Links, ghost y: Layout, start: Node?, isRight: bool)
    requires IsWavl(s0, y0) && node in y0.span
    ensures LinkedAt(s0, y0, node)
    ensures y.order == RemoveLayout(y0, node).order && y.span.Keys == y0.span.Keys - {node}
    ensures Repairable(s, y, start, isRight)
    ensures node in s.at && s.at[node].rank == 0
  {
    assert LinkedAt(s0, y0, node);
    var nodeIsRight := s0.IsRight(node);
    start, isRight := s0.At(node).parent, nodeIsRight;
    s := s0;
    if s0.At(node).left == null {
      DeleteOneChild(s, y0, node, true);
      s := s.MoveNode(node, s0.At(node).right);
      y := RemoveLayout(y0, node);
    } else if s0.At(node).right == null {
      DeleteOneChild(s, y0, node, false);
      s := s.MoveNode(node, s0.At(node).left);
      y := RemoveLayout(y0, node);
    } else {
      var edge;
      ghost var steps;
      edge, steps := FindEdge(s, y0, s.At(node).Child(!nodeIsRight), nodeIsRight);
      y := DeleteTwoChildren(s, y0, node, edge);
      start := s.At(edge).parent;
      isRight := s.IsRight(edge);
      if start == node {
        start := edge;
        isRight := !nodeIsRight;
      }
      s := s.MoveNode(edge, s.At(edge).Child(!nodeIsRight));
      s := s.Replace(node, edge);
    }
    RetiredPending(s, y, node, 0, start, isRight);
    s := s.SetRank(node, 0);
  }

  // The first (edge false) or last (edge true) node of the subtree at start.
  method FindEdge(s: Links, ghost y: Layout, start: Node, edge: bool) returns (node: Node, ghost steps: nat)
    requires IsWavl(s, y) && start in y.span
    ensures LinkedAt(s, y, start)
    ensures node == y.order[if edge then y.span[start].hi - 1 else y.span[start].lo]
    ensures node in y.span && s.At(node).Child(edge) == null
    ensures Pow2((steps + 1) / 2) <= |y.order| + 1
  {
    assert LinkedAt(s, y, start);
    DescendStep(s, y, start);
    node, steps := start, 0;
    while s.At(node).Child(edge) != null
      invariant node in y.span
      invariant if edge then y.span[node].hi == y.span[start].hi else y.span[node].lo == y.span[start].lo
      invariant s.Rank(node) + steps <= s.Rank(start)
      decreases y.span[node].hi - y.span[node].lo
    {
      EdgeStep(s, y, node, edge);
      DescendStep(s, y, node);
      node := s.At(node).Child(edge);
      steps := steps + 1;
    }
    assert LinkedAt(s, y, node);
    SizeBound(s, y, start, null);
    Pow2Monotone((steps + 1) / 2, (s.Rank(start) + 1) / 2);
  }

  lemma EdgeStep(s: Links, y: Layout, n: Node, edge: bool)
    requires Linked(s, y) && n in y.span && s.At(n).Child(edge) != null
    ensures var c := s.At(n).Child(edge);
      && c in y.span && y.span[n].lo < y.span[n].hi && y.span[c].lo < y.span[c].hi
      && y.span[c].hi - y.span[c].lo < y.span[n].hi - y.span[n].lo
      && (if edge then y.span[c].hi == y.span[n].hi else y.span[c].lo == y.span[n].lo)
  {
    assert LinkedAt(s, y, n);
    assert LinkedAt(s, y, s.At(n).Child(edge));
  }

  lemma DeleteOneChild(s: Links, y: Layout, node: Node, d: bool)
    requires IsWavl(s, y) && node in y.span && s.At(node).Child(!d) == null
    ensures LinkedAt(s, y, node)
    ensures var s', y' := s.MoveNode(node, s.At(node).Child(d)), RemoveLayout(y, node);
      && Repairable(s', y', s.At(node).parent, s.IsRight(node))
      && y'.span.Keys == y.span.Keys - {node}
      && node in s'.at && s'.at.Keys == s.at.Keys
  {
    UnlinkCells(s, y, node, d);
    UnlinkPending(s, y, s.MoveNode(node, s.At(node).Child(d)), node, d);
  }

  lemma DeleteTwoChildren(s: Links, y: Layout, node: Node, edge: Node) returns (y': Layout)
    requires IsWavl(s, y) && node in y.span && edge in y.span
    requires s.At(node).left != null && s.At(node).right != null
    requires LinkedAt(s, y, node) && LinkedAt(s, y, edge)
    requires var d := s.IsRight(node);
      && s.At(edge).Child(d) == null
      && y.span[edge].pos == (if d then y.span[node].pos - 1 else y.span[node].pos + 1)
    ensures var d := s.IsRight(node);
      var s' := s.MoveNode(edge, s.At(edge).Child(!d)).Replace(node, edge);
      && s.At(edge).parent != null && node in s'.at
      && DeletePending(s', y', if s.At(edge).parent == node then edge else s.At(edge).parent, s.IsRight(edge))
    ensures s.At(edge).parent == node ==> s.IsRight(edge) == !s.IsRight(node)
    ensures y'.order == RemoveLayout(y, node).order && y'.span.Keys == y.span.Keys - {node}
  {
    var d := s.IsRight(node);
    var p := s.At(edge).parent;
    EdgeBelow(s, y, node, edge);
    NeighbourOrder(s, y, node, edge);
    UnlinkCells(s, y, edge, !d);
    var s1, y1 := s.MoveNode(edge, s.At(edge).Child(!d)), RemoveLayout(y, edge);
    hide *;
    UnlinkPending(s, y, s1, edge, !d);
    y' := MovePending(s, y, s1, y1, node, edge, p, s.IsRight(edge));
  }

  lemma MovePending(s: Links, y: Layout, s1: Links, y1: Layout, node: Node, edge: Node, p: Node, e: bool)
    returns (y': Layout)
    requires node in y.span && edge in y.span && node != edge
    requires y.span[node].pos < |y.order| && y.span[edge].pos < |y.order|
    requires y1 == RemoveLayout(y, edge) && s1.at.Keys == s.at.Keys && y.span.Keys <= s.at.Keys
    requires DeletePending(s1, y1, p, e)
    requires y1.span[node].pos < |y1.order| && y1.order[y1.span[node].pos := edge] == RemoveLayout(y, node).order
    ensures node in s1.Replace(node, edge).at
    ensures DeletePending(s1.Replace(node, edge), y', if p == node then edge else p, e)
    ensures y'.order == RemoveLayout(y, node).order && y'.span.Keys == y.span.Keys - {node}
  {
    y' := ReplaceLayout(y1, node, edge);
    assert y'.order == RemoveLayout(y, node).order && y'.span.Keys == y.span.Keys - {node};
    assert edge !in y1.span && node in y1.span && edge in s1.at;
    hide RemoveLayout;
    hide LinkedAt;
    ReplaceCells(s1, y1, node, edge);
    hide Links.Replace;
    hide ReplaceLayout;
    ReplacePending(s1, y1, s1.Replace(node, edge), node, edge, p, e);
  }

  // Taking out the neighbour and putting it in place of node takes out node.
  // Of two neighbours either one may go, if the other takes its place.
  lemma RemoveBoth(o: seq<Node>, n: nat, e: nat)
    requires n < |o| && e < |o| && (e == n - 1 || e == n + 1)
    ensures var k, q := (if n > e then n - 1 else n), o[..e] + o[e + 1..];
      k < |q| && q[k := o[e]] == o[..n] + o[n + 1..]
  {
    if e < n {
      assert (o[..e] + o[e + 1..])[e := o[e]] == o[..n] + o[n + 1..];
    } else {
      assert (o[..e] + o[e + 1..])[n := o[e]] == o[..n] + o[n + 1..];
    }
  }

  lemma NeighbourOrder(s: Links, y: Layout, node: Node, edge: Node)
    requires Linked(s, y) && node in y.span && edge in y.span
    requires LinkedAt(s, y, node) && LinkedAt(s, y, edge)
    requires y.span[edge].pos == y.span[node].pos - 1 || y.span[edge].pos == y.span[node].pos + 1
    ensures var y1 := RemoveLayout(y, edge);
      && node in y1.span && y1.span[node].pos < |y1.order|
      && y1.order[y1.span[node].pos := edge] == RemoveLayout(y, node).order
  {
    var n, e := y.span[node].pos, y.span[edge].pos;
    assert n < |y.order| && e < |y.order| && y.order[e] == edge;
    assert RemoveLayout(y, edge).order == y.order[..e] + y.order[e + 1..];
    assert RemoveLayout(y, node).order == y.order[..n] + y.order[n + 1..];
    assert RemoveLayout(y, edge).span[node].pos == if n > e then n - 1 else n;
    hide *;
    RemoveBoth(y.order, n, e);
  }

  // A neighbour of a node with two children lies strictly below it.
  lemma EdgeBelow(s: Links, y: Layout, node: Node, edge: Node)
    requires IsWavl(s, y) && node in y.span && edge in y.span
    requires LinkedAt(s, y, node) && LinkedAt(s, y, edge)
    requires s.At(node).left != null && s.At(node).right != null
    requires var d := s.IsRight(node);
      && s.At(edge).Child(d) == null
      && y.span[edge].pos == (if d then y.span[node].pos - 1 else y.span[node].pos + 1)
    ensures s.At(edge).parent != null && node != edge
    ensures s.At(edge).parent == node ==> s.IsRight(edge) == !s.IsRight(node)
  {
    var c := s.At(node).Child(!s.IsRight(node));
    assert LinkedAt(s, y, c);
  }

  // What the descent knows about the place of x, once x is a leaf there.
  lemma LeafInserted(y: Layout, y': Layout, x: Node, cmp: (Node, Node) -> int, k: nat, parent: Node, isRight: bool)
    requires parent in y.span && y.span[parent].pos < |y.order|
    requires k == y.span[parent].pos + (if isRight then 1 else 0)
    requires forall i :: 0 <= i < k ==> cmp(y.order[i], x) > 0
    requires forall i :: k <= i < |y.order| ==> cmp(y.order[i], x) < 0
    requires var y1 := LeafLayout(y, x, parent, isRight); y'.order == y1.order && y'.span.Keys == y1.span.Keys
    ensures Inserted(y, y', x, cmp, k)
  {
  }

  lemma InsertedApart(y: Layout, y': Layout, x: Node, cmp: (Node, Node) -> int, k: nat)
    requires Inserted(y, y', x, cmp, k)
    ensures forall n :: n in y.order ==> cmp(n, x) != 0
  {
    forall n | n in y.order
      ensures cmp(n, x) != 0
    {
      var i :| 0 <= i < |y.order| && y.order[i] == n;
    }
  }

  method InsertLinks(s0: Links, ghost y0: Layout, x: Node, cmp: (Node, Node) -> int)
    returns (inserted: bool, s: Links, ghost y: Layout, ghost k: nat)
    requires IsWavl(s0, y0) && x !in y0.span && Consistent(y0.order, x, cmp)
    ensures IsWavl(s, y)
    ensures inserted <==> forall n :: n in y0.order ==> cmp(n, x) != 0
    ensures !inserted ==> s == s0 && y == y0
    ensures inserted ==> Inserted(y0, y, x, cmp, k)
    ensures inserted && AvlExcept(s0, y0, null) ==> AvlExcept(s, y, null)
  {
    hide Pow2, SameLinks, TurnedInsert, RankOk;
    var found, parent, isRight;
    ghost var steps, climbs, flat, rotations;
    s, y := s0, y0;
    found, parent, isRight, k, steps := Descend(s, y, x, cmp);
    if found != null {
      return false, s, y, k;
    }
    inserted := true;
    if parent == null {
      FirstNode(s, y, x);
      s, y := s.LinkLeaf(x, null, false), Layout([x], map[x := Span(0, 0, 1)]);
    } else {
      LeafPending(s, y, x, parent, isRight);
      ghost var y1 := LeafLayout(y, x, parent, isRight);
      hide *;
      s, y := s.LinkLeaf(x, parent, isRight), y1;
      s, y, climbs, flat, rotations := UpdateRankInsert(s, y, x);
      LeafInserted(y0, y, x, cmp, k, parent, isRight);
    }
    InsertedApart(y0, y, x, cmp, k);
  }

  // ---------- repair after an insertion ----------

  lemma LinksRefl(s: Links)
    ensures SameLinks(s, s)
  {
  }

  lemma RankedLinks(s0: Links, s: Links, n: Node, r: nat)
    requires SameLinks(s0, s) && n in s.at
    ensures SameLinks(s0, s.SetRank(n, r))
  {
  }

  lemma TurnedUp(s: Links, y: Layout, up: Node, down: Node, d: bool)
    requires up in y.span && down in y.span
    ensures TurnedInsert(s, RotateInsert(s, up, down, d), y)
  {
  }

  // Promotes and rotates upwards from the new leaf start.
  method UpdateRankInsert(s0: Links, ghost y0: Layout, start: Node)
    returns (s: Links, ghost y: Layout, ghost climbs: nat, ghost flat: Links, ghost rotations: nat)
    requires InsertPending(s0, y0, start)
    requires s0.Rank(start) == 1
    ensures IsWavl(s, y)
    ensures y.order == y0.order && y.span.Keys == y0.span.Keys
    ensures AvlExcept(s0, y0, s0.At(start).parent) ==> AvlExcept(s, y, null)
    ensures Pow2((climbs + 2) / 2) <= |y.order| + 1
    ensures SameLinks(s0, flat) && rotations <= 1
    ensures if rotations == 0 then s == flat else TurnedInsert(flat, s, y0)
  {
    hide RotateInsert, SameLinks, LinkedAt, Linked;
    LinksRefl(s0);
    var node: Node := start;
    s, y, climbs := s0, y0, 0;
    flat, rotations := s, 0;
    while true
      invariant InsertPending(s, y, node) && y == y0
      invariant AvlExcept(s0, y0, s0.At(start).parent) ==> AvlExcept(s, y, s.At(node).parent)
      invariant s.Rank(node) == climbs + 1
      invariant SameLinks(s0, s) && flat == s && rotations == 0
      decreases |y.order| - (y.span[node].hi - y.span[node].lo)
    {
      InsertStep(s, y, node);
      var isRight := s.IsRight(node);
      var rank := s.Rank(node) + 1;
      var parent := s.At(node).parent;
      if parent == null || s.Rank(parent) >= rank {
        return;
      }
      if s.Rank(s.At(parent).Child(!isRight)) + 2 < rank {
        TurnedUp(s, y, node, parent, isRight);
        ghost var y' := RotateInsertOk(s, y, node, parent, isRight);
        assert s.At(parent).Child(isRight) == node;
        s := RotateInsert(s, s.At(parent).Child(isRight), parent, isRight);
        y, rotations := y', 1;
        return;
      }
      Promote(s, y, node, parent);
      RankedLinks(s0, s, parent, rank);
      s := s.SetRank(parent, rank);
      node := parent;
      climbs, flat := climbs + 1, s;
    }
  }

  // One rotation leads from t to s.
  ghost predicate TurnedInsert(t: Links, s: Links, y: Layout) {
    exists up, down, d :: up in y.span && down in y.span && s == RotateInsert(t, up, down, d)
  }

  ghost predicate TurnedDelete(t: Links, s: Links, y: Layout) {
    exists up, down, d :: up in y.span && down in y.span && s == RotateDelete(t, up, down, d)
  }

  // ---------- repair after a deletion ----------

  // Demotes and rotates upwards from start, whose child on one side lost a rank.
  method UpdateRankDelete(s0: Links, ghost y0: Layout, start: Node, startIsRight: bool)
    returns (s: Links, ghost y: Layout, ghost climbs: nat, ghost flat: Links, ghost rotations: nat)
    requires DeletePending(s0, y0, start, startIsRight)
    ensures IsWavl(s, y)
    ensures y.order == y0.order && y.span.Keys == y0.span.Keys
    ensures SameBeyond(s0, s, y)
    ensures Pow2(climbs / 2) <= 2 * (|y.order| + 1)
    ensures SameLinks(s0, flat) && rotations <= 1
    ensures if rotations == 0 then s == flat else TurnedDelete(flat, s, y0)
  {
    var node: Node? := start;
    var isRight := startIsRight;
    s, y, climbs := s0, y0, 0;
    flat, rotations := s, 0;
    while node != null
      invariant Repairable(s, y, node, isRight) && y == y0
      invariant SameBeyond(s0, s, y)
      invariant SameLinks(s0, s) && flat == s && rotations == 0
      invariant node != null ==> climbs + 1 <= s.Rank(node)
      invariant Pow2(climbs / 2) <= 2 * (|y.order| + 1)
      decreases Above(y, node)
    {
      var other := s.At(node).Child(!isRight);
      DeleteStep(s, y, node, isRight);
      if s.At(node).left == null && s.At(node).right == null {
        assert s.Rank(node) == 2;
      } else if s.Rank(node) <= s.Rank(s.At(node).Child(isRight)) + 2 {
        return;
      }
      assert s.Rank(node) > 1;
      ghost var t := s;
      climbs := climbs + 1;
      ClimbBound(t, y, node, isRight, climbs);
      DeleteNodes(t, y, node, isRight);
      hide *;
      DemotedLinks(s0, t, node);
      s := Demoted(s, node);
      if s.Rank(node) <= s.Rank(other) {
        if s.Rank(s.At(other).left) + 2 == s.Rank(node) && s.Rank(s.At(other).right) + 2 == s.Rank(node) {
          StepDemoteBoth(s0, t, y, node, isRight, other);
          DemotedLinks(s0, s, other);
          s := Demoted(s, other);
        } else {
          DemotedRanks(t, node);
          TurnedBy(t, y, other, node, !isRight);
          y := StepRotate(s0, t, y, node, isRight, other);
          s := Restored(s, node);
          s := RotateDelete(s, other, node, !isRight);
          rotations := 1;
          return;
        }
      } else {
        StepDemote(s0, t, y, node, isRight);
      }
      StepNext(s0, t, s, y, node);
      flat := s;
      isRight := s.IsRight(node);
      node := s.At(node).parent;
    }
  }

  lemma DeleteNodes(s: Links, y: Layout, node: Node, d: bool)
    requires DeletePending(s, y, node, d)
    ensures node in s.at && node in y.span && s.Rank(node) > 0
    ensures var x := s.At(node).Child(!d); x != null ==> x in s.at && x in y.span
  {
    assert LinkedAt(s, y, node);
  }

  lemma DemotedLinks(s0: Links, s: Links, node: Node)
    requires SameLinks(s0, s) && node in s.at
    ensures SameLinks(s0, Demoted(s, node)) && Demoted(s, node).at.Keys == s.at.Keys
  {
  }

  lemma TurnedBy(s: Links, y: Layout, up: Node, down: Node, d: bool)
    requires up in y.span && down in y.span
    ensures TurnedDelete(s, RotateDelete(s, up, down, d), y)
  {
  }

  lemma StepNext(s0: Links, s: Links, s': Links, y: Layout, node: Node)
    requires StepDone(s0, s, s', y, node)
    ensures var p := s'.At(node).parent;
      && Repairable(s', y, p, s'.IsRight(node)) && SameBeyond(s0, s', y)
      && Above(y, p) < Above(y, node)
      && (p != null ==> s'.Rank(p) > s.Rank(node))
  {
  }

  lemma ClimbBound(s: Links, y: Layout, node: Node, d: bool, climbs: nat)
    requires DeletePending(s, y, node, d) && climbs <= s.Rank(node)
    ensures Pow2(climbs / 2) <= 2 * (|y.order| + 1)
  {
    PendingBound(s, y, node, d);
    Pow2Monotone(climbs / 2, s.Rank(node) / 2);
  }

  ghost predicate Inserted(y: Layout, y': Layout, x: Node, cmp: (Node, Node) -> int, k: nat) {
    && k <= |y.order|
    && y'.order == y.order[..k] + [x] + y.order[k..]
    && y'.span.Keys == y.span.Keys + {x}
    && (forall i :: 0 <= i < k ==> cmp(y.order[i], x) > 0)
    && (forall i :: k <= i < |y.order| ==> cmp(y.order[i], x) < 0)
  }

  // Between the steps of the climb: all is well, or node needs attention.
  ghost predicate Repairable(s: Links, y: Layout, node: Node?, d: bool) {
    if node == null then IsWavl(s, y) else DeletePending(s, y, node, d)
  }

  // How many positions lie outside the subtree of a node.
  ghost function Above(y: Layout, node: Node?): nat {
    if node == null || node !in y.span then 0
    else if y.span[node].lo <= y.span[node].hi <= |y.order| then |y.order| - (y.span[node].hi - y.span[node].lo) + 1
    else 0
  }

  function Demoted(s: Links, node: Node): Links {
    s.SetRank(node, Dec(s.Rank(node), 1))
  }

  // Undoes a demotion.
  function Restored(s: Links, node: Node): Links {
    s.SetRank(node, s.Rank(node) + 1)
  }

  // The state that a step of the climb after a deletion starts from.
  ghost predicate DeleteStepFrom(s0: Links, s: Links, y: Layout, node: Node, d: bool) {
    && DeletePending(s, y, node, d) && SameBeyond(s0, s, y)
    && ((s.At(node).left == null && s.At(node).right == null) || s.Rank(node) > s.Rank(s.At(node).Child(d)) + 2)
  }

  // The state that such a step, from s to s', leaves for the next one.
  ghost predicate StepDone(s0: Links, s: Links, s': Links, y: Layout, node: Node) {
    var p := s'.At(node).parent;
    && Repairable(s', y, p, s'.IsRight(node)) && SameBeyond(s0, s', y)
    && Above(y, p) < Above(y, node)
    && (p != null ==> s'.Rank(p) > s.Rank(node))
  }

  lemma StepDemote(s0: Links, s: Links, y: Layout, node: Node, d: bool)
    requires DeleteStepFrom(s0, s, y, node, d)
    requires Demoted(s, node).Rank(node) > Demoted(s, node).Rank(s.At(node).Child(!d))
    ensures StepDone(s0, s, Demoted(s, node), y, node)
  {
    DeleteStep(s, y, node, d);
    ParentSpan(s, y, node);
    DemoteOk(s, y, node, d);
    DeleteUp(s, y, Demoted(s, node), node, d, null);
  }

  lemma BeyondDemoted(s0: Links, s: Links, y: Layout, node: Node)
    requires SameBeyond(s0, s, y) && node in s.at && node in y.span
    ensures SameBeyond(s0, Demoted(s, node), y) && Demoted(s, node).at.Keys == s.at.Keys
  {
  }

  // What the tests before a double demotion say of the ranks.
  lemma BothRanks(s: Links, y: Layout, node: Node, d: bool, x: Node)
    requires DeletePending(s, y, node, d) && x == s.At(node).Child(!d)
    requires (s.At(node).left == null && s.At(node).right == null) || s.Rank(node) > s.Rank(s.At(node).Child(d)) + 2
    requires var s1 := Demoted(s, node);
      && s1.Rank(node) <= s1.Rank(x)
      && s1.Rank(s1.At(x).left) + 2 == s1.Rank(node) && s1.Rank(s1.At(x).right) + 2 == s1.Rank(node)
    ensures s.Rank(node) > 0 && s.Rank(x) > 0 && x in s.at && node in s.at && x in y.span
    ensures Demoted(Demoted(s, node), x) == s.SetRank(node, s.Rank(node) - 1).SetRank(x, s.Rank(x) - 1)
    ensures Demoted(s, node).Rank(x) == Demoted(s, node).Rank(node)
    ensures s.Rank(node) == s.Rank(s.At(node).Child(d)) + 3 == s.Rank(x) + 1
    ensures s.Rank(s.At(x).left) + 3 == s.Rank(node) == s.Rank(s.At(x).right) + 3
  {
    DeleteStep(s, y, node, d);
    assert LinkedAt(s, y, node) && LinkedAt(s, y, x);
    DemotedRanks(s, node);
    hide Linked, RankOk;
  }

  lemma SameParent(s: Links, s': Links, xs: set<Node>, node: Node)
    requires SameOutside(s, s', xs)
    ensures s'.At(node).parent == s.At(node).parent && s'.IsRight(node) == s.IsRight(node)
  {
  }

  lemma StepDemoteBoth(s0: Links, s: Links, y: Layout, node: Node, d: bool, x: Node)
    requires DeleteStepFrom(s0, s, y, node, d) && x == s.At(node).Child(!d)
    requires var s1 := Demoted(s, node);
      && s1.Rank(node) <= s1.Rank(x)
      && s1.Rank(s1.At(x).left) + 2 == s1.Rank(node) && s1.Rank(s1.At(x).right) + 2 == s1.Rank(node)
    ensures var s1, s2 := Demoted(s, node), Demoted(Demoted(s, node), x);
      s1.Rank(x) == s1.Rank(node) && StepDone(s0, s, s2, y, node)
  {
    hide LinkedAt, Linked, SameBeyond, RankedExcept, Demoted, SameOutside, OkRanks, RankOk;
    BothRanks(s, y, node, d, x);
    DeleteNodes(s, y, node, d);
    BeyondDemoted(s0, s, y, node);
    BeyondDemoted(s0, Demoted(s, node), y, x);
    DemoteBothOk(s, y, node, d, x);
    ParentSpan(s, y, node);
    DeleteUp(s, y, Demoted(Demoted(s, node), x), node, d, x);
    SameParent(s, Demoted(Demoted(s, node), x), {node} + Opt(x), node);
  }

  lemma DemotedRanks(s: Links, node: Node)
    requires node in s.at && s.Rank(node) > 0
    ensures Restored(Demoted(s, node), node) == s
    ensures forall m :: Demoted(s, node).Rank(m) == if m == node then s.Rank(node) - 1 else s.Rank(m)
    ensures forall m, d :: Demoted(s, node).At(m).Child(d) == s.At(m).Child(d)
  {
    assert Restored(Demoted(s, node), node).at == s.at;
  }

  lemma StepRotate(s0: Links, s: Links, y: Layout, node: Node, d: bool, x: Node) returns (y': Layout)
    requires DeleteStepFrom(s0, s, y, node, d) && x == s.At(node).Child(!d)
    requires var s1 := Demoted(s, node);
      && s1.Rank(node) <= s1.Rank(x)
      && !(s1.Rank(s1.At(x).left) + 2 == s1.Rank(node) && s1.Rank(s1.At(x).right) + 2 == s1.Rank(node))
    ensures y'.order == y.order && y'.span.Keys == y.span.Keys
    ensures var s2 := RotateDelete(Restored(Demoted(s, node), node), x, node, !d);
      IsWavl(s2, y') && SameBeyond(s0, s2, y')
    ensures Demoted(s, node).Rank(x) == Demoted(s, node).Rank(node)
  {
    DeleteStep(s, y, node, d);
    DemotedRanks(s, node);
    assert Demoted(s, node).At(x) == s.At(x);
    assert s.At(x).left != node && s.At(x).right != node by {
      assert LinkedAt(s, y, node) && LinkedAt(s, y, x);
    }
    hide Demoted;
    hide Restored;
    hide RotateDelete;
    y' := RotateDeleteOk(s, y, x, node, !d);
    RotateDeleteFrame(s, y, x, node, !d);
    hide Linked;
  }

  lemma ParentSpan(s: Links, y: Layout, node: Node)
    requires Linked(s, y) && node in y.span
    ensures LinkedAt(s, y, node)
    ensures var p := s.At(node).parent;
      p != null ==> p in y.span && y.span[p].lo <= y.span[p].hi <= |y.order| &&
                    y.span[node].hi - y.span[node].lo < y.span[p].hi - y.span[p].lo
  {
    var p := s.At(node).parent;
    assert LinkedAt(s, y, node);
    if p != null {
      assert LinkedAt(s, y, p);
    }
  }

  // Case analysis of one step of the climb after a deletion.
  lemma DeleteStep(s: Links, y: Layout, node: Node, d: bool)
    requires DeletePending(s, y, node, d)
    ensures var r, c, x := s.Rank(node), s.Rank(s.At(node).Child(d)), s.At(node).Child(!d);
      var leaf := s.At(node).left == null && s.At(node).right == null;
      && node in s.at && r > 1
      && (leaf ==> r == 2)
      && (leaf <==> c == 0 && s.Rank(x) == 0)
      && (!leaf && r <= c + 2 ==> IsWavl(s, y))
      && (!leaf && r > c + 2 ==> r == c + 3)
      && (s.Rank(x) + 1 == r ==> x != null && x in y.span && x in s.at && x != node)
      && s.Rank(x) < r <= s.Rank(x) + 2
  {
    assert LinkedAt(s, y, node);
    var l, r := s.At(node).left, s.At(node).right;
    assert l != null ==> RankOk(s, l);
    assert r != null ==> RankOk(s, r);
    Sides(s, node, d);
    if !(l == null && r == null) && s.Rank(node) <= s.Rank(s.At(node).Child(d)) + 2 {
      DeleteDone(s, y, node, d);
    }
  }

  // Position k lies in the subtree of node n.
  ghost predicate Beneath(y: Layout, n: Node, k: nat) {
    n in y.span && y.span[n].lo <= k < y.span[n].hi
  }

  // The descent that insertion and search share: it ends at a colliding node,
  // or at the free link where x belongs, after at most rank-of-root steps.
  method Descend(s: Links, ghost y: Layout, x: Node, cmp: (Node, Node) -> int)
    returns (found: Node?, parent: Node?, isRight: bool, ghost k: nat, ghost steps: nat)
    requires IsWavl(s, y) && Consistent(y.order, x, cmp)
    ensures found != null ==> found in y.span && found in y.order && cmp(found, x) == 0
    ensures found != null ==> forall i :: 0 <= i < |y.order| && cmp(y.order[i], x) == 0 ==> Beneath(y, found, i)
    ensures found == null ==> k <= |y.order|
    ensures found == null ==> forall i :: 0 <= i < k ==> cmp(y.order[i], x) > 0
    ensures found == null ==> forall i :: k <= i < |y.order| ==> cmp(y.order[i], x) < 0
    ensures found == null && parent == null ==> s.root == null && k == 0
    ensures found == null && parent != null ==> parent in y.span && s.At(parent).Child(isRight) == null
    ensures found == null && parent != null ==> k == y.span[parent].pos + (if isRight then 1 else 0)
    ensures Pow2((steps + 1) / 2) <= |y.order| + 1
  {
    var cursor := s.root;
    ghost var lo: nat, hi: nat := 0, |y.order|;
    found, parent, isRight, k, steps := null, null, false, 0, 0;
    RootSpan(s, y);
    while cursor != null
      invariant 0 <= lo <= hi <= |y.order|
      invariant forall i :: 0 <= i < lo ==> cmp(y.order[i], x) > 0
      invariant forall i :: hi <= i < |y.order| ==> cmp(y.order[i], x) < 0
      invariant cursor == null ==> lo == hi
      invariant cursor != null ==> cursor in y.span && y.span[cursor].lo == lo && y.span[cursor].hi == hi
      invariant parent == null ==> cursor == s.root && steps == 0
      invariant parent != null ==> parent in y.span && s.At(parent).Child(isRight) == cursor
      invariant parent != null ==> (if isRight then y.span[parent].pos + 1 == lo else y.span[parent].pos == hi)
      invariant s.Rank(cursor) + steps <= s.Rank(s.root)
      decreases hi - lo, cursor != null
    {
      DescendStep(s, y, cursor);
      Pow2Monotone((steps + 1) / 2, (s.Rank(s.root) + 1) / 2);
      var c := cmp(cursor, x);
      if c == 0 {
        found := cursor;
        return;
      }
      DescendApart(y.order, x, cmp, y.span[cursor].pos);
      parent, isRight := cursor, c > 0;
      if isRight {
        lo := y.span[cursor].pos + 1;
      } else {
        hi := y.span[cursor].pos;
      }
      cursor := s.At(cursor).Child(isRight);
      steps := steps + 1;
    }
    k := lo;
    Pow2Monotone((steps + 1) / 2, (s.Rank(s.root) + 1) / 2);
  }

  lemma DescendApart(order: seq<Node>, x: Node, cmp: (Node, Node) -> int, k: nat)
    requires Consistent(order, x, cmp) && k < |order|
    ensures cmp(order[k], x) > 0 ==> forall i :: 0 <= i <= k ==> cmp(order[i], x) > 0
    ensures cmp(order[k], x) < 0 ==> forall i :: k <= i < |order| ==> cmp(order[i], x) < 0
  {
  }

  lemma RootSpan(s: Links, y: Layout)
    requires IsWavl(s, y)
    ensures s.root == null ==> y.order == []
    ensures s.root != null ==> s.root in y.span && y.span[s.root].lo == 0 && y.span[s.root].hi == |y.order|
    ensures Pow2((s.Rank(s.root) + 1) / 2) <= |y.order| + 1
  {
    if s.root != null {
      assert LinkedAt(s, y, s.root);
      SizeBound(s, y, s.root, null);
    }
  }

  lemma NotEmpty(s: Links, y: Layout, n: Node)
    requires Linked(s, y) && n in y.span
    ensures |y.order| > 0
  {
    assert LinkedAt(s, y, n);
  }

  lemma FirstNode(s: Links, y: Layout, x: Node)
    requires IsWavl(s, y) && s.root == null
    ensures y.span.Keys == {}
    ensures var s', y' := s.LinkLeaf(x, null, false), Layout([x], map[x := Span(0, 0, 1)]);
      IsWavl(s', y') && AvlExcept(s', y', null)
  {
    if n :| n in y.span {
      NotEmpty(s, y, n);
    }
    var s', y' := s.LinkLeaf(x, null, false), Layout([x], map[x := Span(0, 0, 1)]);
    assert LinkedAt(s', y', x);
  }

  lemma DescendStep(s: Links, y: Layout, n: Node)
    requires IsWavl(s, y) && n in y.span
    ensures var c, i := s.At(n), y.span[n];
      && n in s.at && i.lo <= i.pos < i.hi <= |y.order| && y.order[i.pos] == n
      && (if c.left == null then i.lo == i.pos else c.left in y.span && y.span[c.left].lo == i.lo && y.span[c.left].hi == i.pos)
      && (if c.right == null then i.pos + 1 == i.hi else c.right in y.span && y.span[c.right].lo == i.pos + 1 && y.span[c.right].hi == i.hi)
      && s.Rank(c.left) < s.Rank(n) && s.Rank(c.right) < s.Rank(n)
  {
    assert LinkedAt(s, y, n);
    assert RankOk(s, n);
  }

  // The case analysis of one step of the climb, and the bound on its length.
  lemma InsertStep(s: Links, y: Layout, node: Node)
    requires InsertPending(s, y, node)
    ensures Pow2((s.Rank(node) + 1) / 2) <= |y.order| + 1
    ensures var p, d := s.At(node).parent, s.IsRight(node);
      if p == null || s.Rank(p) > s.Rank(node) then
        && (p != null ==> s.Rank(p) == s.Rank(node) + 1)
        && IsWavl(s, y)
        && (AvlExcept(s, y, p) ==> AvlExcept(s, y, null))
      else
        && s.Rank(p) == s.Rank(node) && s.At(p).Child(d) == node
        && p in s.at && p in y.span && OneTwo(s, node)
        && s.Rank(p) - 2 <= s.Rank(s.At(p).Child(!d)) < s.Rank(p)
        && y.span[p].lo <= y.span[node].lo && y.span[node].hi <= y.span[p].hi <= |y.order|
        && y.span[node].hi - y.span[node].lo < y.span[p].hi - y.span[p].lo
  {
    var p := s.At(node).parent;
    assert LinkedAt(s, y, node);
    if p != null {
      assert LinkedAt(s, y, p);
    }
    SizeBound(s, y, node, p);
    if p == null || s.Rank(p) > s.Rank(node) {
      InsertDone(s, y, node);
    }
  }

  // ---------- walking the tree ----------

  // The position next to i, or null beyond the ends of the order.
  ghost predicate IsNeighbour(y: Layout, i: int, dirNext: bool, n: Node?) {
    var k := if dirNext then i + 1 else i - 1;
    if 0 <= k < |y.order| then n == y.order[k] else n == null
  }

  // The neighbour of node in the order, or the first or last node for null.
  method PrevNext(s: Links, ghost y: Layout, node: Node?, dirNext: bool) returns (r: Node?, ghost steps: nat)
    requires IsWavl(s, y) && (node != null ==> node in y.span)
    ensures node != null ==> LinkedAt(s, y, node) && IsNeighbour(y, y.span[node].pos, dirNext, r)
    ensures node == null ==> IsNeighbour(y, if dirNext then -1 else |y.order|, dirNext, r)
    ensures r != null ==> r in y.span
    ensures steps == 0 || Pow2((steps + 1) / 2) <= |y.order| + 1
  {
    RootSpan(s, y);
    steps := 0;
    var nextChild := if node == null then s.root else s.At(node).Child(dirNext);
    if node == null && nextChild == null {
      return null, 0;
    }
    if node != null {
      assert LinkedAt(s, y, node);
    }
    if nextChild != null {
      ghost var down;
      r, down := FindEdge(s, y, nextChild, !dirNext);
    } else {
      var nextParent: Node := node;
      while s.IsRight(nextParent) == dirNext
        invariant nextParent in y.span
        invariant if dirNext then y.span[nextParent].hi == y.span[node].hi else y.span[nextParent].lo == y.span[node].lo
        invariant steps == 0 || steps < s.Rank(nextParent)
        invariant steps == 0 || Pow2((steps + 1) / 2) <= |y.order| + 1
        decreases Above(y, nextParent)
      {
        UpStep(s, y, nextParent);
        if s.At(nextParent).parent == null {
          return null, steps;
        }
        nextParent := s.At(nextParent).parent;
        steps := steps + 1;
        WalkBound(s, y, nextParent, steps);
      }
      UpStep(s, y, nextParent);
      r := s.At(nextParent).parent;
    }
  }

  lemma WalkBound(s: Links, y: Layout, n: Node, steps: nat)
    requires IsWavl(s, y) && n in y.span && steps <= s.Rank(n)
    ensures Pow2((steps + 1) / 2) <= |y.order| + 1
  {
    SizeBound(s, y, n, null);
    Pow2Monotone((steps + 1) / 2, (s.Rank(n) + 1) / 2);
  }

  lemma UpStep(s: Links, y: Layout, n: Node)
    requires IsWavl(s, y) && n in y.span
    ensures var p, i := s.At(n).parent, y.span[n];
      && i.lo < i.hi <= |y.order| && s.Rank(n) > 0
      && (p == null ==> i.lo == 0 && i.hi == |y.order| && !s.IsRight(n))
      && (p != null ==>
            && p in y.span && y.span[p].pos < |y.order| && y.order[y.span[p].pos] == p
            && s.Rank(n) < s.Rank(p) && Above(y, p) < Above(y, n)
            && (if s.IsRight(n) then i.lo == y.span[p].pos + 1 && i.hi == y.span[p].hi
                else i.hi == y.span[p].pos && i.lo == y.span[p].lo))
  {
    assert LinkedAt(s, y, n);
    assert RankOk(s, n);
    var p := s.At(n).parent;
    if p != null {
      assert LinkedAt(s, y, p);
      assert RankOk(s, p);
    }
  }

  // Repeated bst_next from null visits exactly the in-order sequence.
  method ForEvery(s: Links, ghost y: Layout) returns (visited: seq<Node>)
    requires IsWavl(s, y)
    ensures visited == y.order
  {
    var node: Node?;
    ghost var steps;
    visited := [];
    node, steps := PrevNext(s, y, null, true);
    while node != null
      invariant visited <= y.order
      invariant node == if |visited| < |y.order| then y.order[|visited|] else null
      decreases |y.order| - |visited|
    {
      visited := visited + [node];
      assert LinkedAt(s, y, node);
      node, steps := PrevNext(s, y, node, true);
    }
  }

  // A search finds a colliding node whenever there is one, and the one that all
  // others are beneath.
  method Search(s: Links, ghost y: Layout, x: Node, cmp: (Node, Node) -> int) returns (found: Node?)
    requires IsWavl(s, y) && Consistent(y.order, x, cmp)
    ensures found != null ==> found in y.order && cmp(found, x) == 0
    ensures found != null ==> forall i :: 0 <= i < |y.order| && cmp(y.order[i], x) == 0 ==> Beneath(y, found, i)
    ensures found == null ==> forall n :: n in y.order ==> cmp(n, x) != 0
  {
    var parent, isRight;
    ghost var k, steps;
    found, parent, isRight, k, steps := Descend(s, y, x, cmp);
  }

  // ---------- height ----------

  ghost function Height(s: Links, y: Layout, n: Node?): nat
    requires Linked(s, y) && (n != null ==> n in y.span)
    decreases if n == null then 0 else 1, if n == null || n !in y.span then 0 else y.span[n].hi - y.span[n].lo
  {
    if n == null then 0 else
      HeightStep(s, y, n);
      var a, b := Height(s, y, s.At(n).left), Height(s, y, s.At(n).right);
      1 + if a < b then b else a
  }

  lemma HeightStep(s: Links, y: Layout, n: Node)
    requires Linked(s, y) && n in y.span
    ensures var l, r, i := s.At(n).left, s.At(n).right, y.span[n];
      && i.lo < i.hi
      && (l != null ==> l in y.span && y.span[l].lo < y.span[l].hi && y.span[l].hi - y.span[l].lo < i.hi - i.lo)
      && (r != null ==> r in y.span && y.span[r].lo < y.span[r].hi && y.span[r].hi - y.span[r].lo < i.hi - i.lo)
  {
    assert LinkedAt(s, y, n);
    var l, r := s.At(n).left, s.At(n).right;
    assert l != null ==> LinkedAt(s, y, l);
    assert r != null ==> LinkedAt(s, y, r);
  }

  lemma {:induction false} HeightWithinRank(s: Links, y: Layout, n: Node?)
    requires IsWavl(s, y) && (n != null ==> n in y.span)
    ensures Height(s, y, n) <= s.Rank(n)
    decreases if n == null then 0 else 1, if n == null || n !in y.span then 0 else y.span[n].hi - y.span[n].lo
  {
    if n != null {
      HeightStep(s, y, n);
      HeightWithinRank(s, y, s.At(n).left);
      HeightWithinRank(s, y, s.At(n).right);
      assert RankOk(s, n);
    }
  }

  // The height is at most twice the logarithm of the number of nodes plus one.
  lemma HeightBound(s: Links, y: Layout)
    requires IsWavl(s, y)
    ensures s.root != null ==> s.root in y.span
    ensures Pow2((Height(s, y, s.root) + 1) / 2) <= |y.order| + 1
  {
    RootSpan(s, y);
    HeightWithinRank(s, y, s.root);
    Pow2Monotone((Height(s, y, s.root) + 1) / 2, (s.Rank(s.root) + 1) / 2);
  }
}
