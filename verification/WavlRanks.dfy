module WavlRanks {
  import opened WavlLinks

  // The weak AVL rule for a node of rank r with children of rank a and b: a
  // missing child has rank 0, a child is 1 or 2 below, a leaf has rank 1.
  predicate OkRanks(r: nat, a: nat, b: nat) {
    a < r <= a + 2 && b < r <= b + 2 && (a == 0 && b == 0 ==> r == 1)
  }

  predicate RankOk(s: Links, n: Node) {
    OkRanks(s.Rank(n), s.Rank(s.At(n).left), s.Rank(s.At(n).right))
  }

  ghost predicate RankedExcept(s: Links, y: Layout, x: Node?) {
    forall n {:trigger RankOk(s, n)} :: n in y.span && n != x ==> RankOk(s, n)
  }

  ghost predicate IsWavl(s: Links, y: Layout) {
    Linked(s, y) && RankedExcept(s, y, null)
  }

  // No child is two ranks below while its sibling is as well. A weak AVL tree
  // where this holds everywhere is an AVL tree.
  predicate NotTwoTwo(s: Links, n: Node) {
    s.Rank(n) < s.Rank(s.At(n).left) + 2 || s.Rank(n) < s.Rank(s.At(n).right) + 2
  }

  ghost predicate AvlExcept(s: Links, y: Layout, x: Node?) {
    forall n {:trigger NotTwoTwo(s, n)} :: n in y.span && n != x ==> NotTwoTwo(s, n)
  }

  // s2 has the links of s, and the ranks of s except at nodes in xs.
  ghost predicate SameLinks(s: Links, s': Links) {
    && s'.root == s.root && s'.at.Keys == s.at.Keys
    && (forall n :: n in s.at ==> s'.at[n] == s.at[n].(rank := s'.at[n].rank))
  }

  lemma SameLinksLinked(s: Links, s': Links, y: Layout)
    requires Linked(s, y) && SameLinks(s, s')
    ensures Linked(s', y)
  {
    forall n | n in y.span
      ensures LinkedAt(s', y, n)
    {
      assert LinkedAt(s, y, n);
    }
  }

  // ---------- insertion ----------

  ghost predicate OneTwo(s: Links, n: Node) {
    var r, a, b := s.Rank(n), s.Rank(s.At(n).left), s.Rank(s.At(n).right);
    (r == 1 && a == 0 && b == 0) || (r == a + 1 && r == b + 2) || (r == a + 2 && r == b + 1)
  }

  // The rules do not distinguish left from right.
  lemma Sides(s: Links, n: Node, d: bool)
    ensures var r, a, b := s.Rank(n), s.Rank(s.At(n).Child(d)), s.Rank(s.At(n).Child(!d));
      && RankOk(s, n) == OkRanks(r, a, b)
      && NotTwoTwo(s, n) == (r < a + 2 || r < b + 2)
      && OneTwo(s, n) == ((r == 1 && a == 0 && b == 0) || (r == a + 1 && r == b + 2) || (r == a + 2 && r == b + 1))
  {
  }

  // The ranks where a grown child meets its parent p and its sibling.
  ghost predicate RanksUnder(s: Links, node: Node, p: Node, sibling: Node?) {
    var a, r, b := s.Rank(node), s.Rank(p), s.Rank(sibling);
    && b < r <= b + 2 && a <= r <= a + 1
    && (r == a ==> OneTwo(s, node))
  }

  // node was inserted or promoted and only its parent may be out of order.
  ghost predicate InsertPending(s: Links, y: Layout, node: Node) {
    var p := s.At(node).parent;
    && Linked(s, y) && node in y.span
    && RankedExcept(s, y, p)
    && (p != null ==> RanksUnder(s, node, p, s.At(p).Child(!s.IsRight(node))))
  }

  function Dec(n: nat, k: nat): nat {
    if n < k then 0 else n - k
  }

  // A rotation followed by demoting x.
  function RotateDemote(s: Links, up: Node, down: Node, d: bool, x: Node): Links {
    var s1 := s.Rotate(up, down, d);
    s1.SetRank(x, Dec(s1.Rank(x), 1))
  }

  function RotateInsertDouble(s: Links, up2: Node, up1: Node, down: Node, d: bool): Links {
    var s1 := RotateDemote(s.SetRank(up2, s.Rank(up2) + 1), up2, up1, !d, up1);
    RotateDemote(s1, up2, down, d, down)
  }

  function RotateInsert(s: Links, up1: Node, down: Node, d: bool): Links {
    var up2 := s.At(up1).Child(!d);
    if up2 != null && s.Rank(up2) + 1 >= s.Rank(down) then
      RotateInsertDouble(s, up2, up1, down, d)
    else
      RotateDemote(s, up1, down, d, down)
  }

  // ---------- nodes outside the rotated ones ----------

  function Swap(c: Node?, x: Node, e: Node): Node? {
    if c == x then e else c
  }

  // Outside xs nothing changes from s to s', except that e is now where x was.
  ghost predicate Grafted(s: Links, s': Links, y: Layout, xs: set<Node>, x: Node, e: Node) {
    forall n {:trigger s'.At(n)} :: n in y.span && n !in xs ==>
      && s'.At(n).rank == s.At(n).rank
      && s'.At(n).left == Swap(s.At(n).left, x, e)
      && s'.At(n).right == Swap(s.At(n).right, x, e)
      && (s.At(n).left in xs ==> s.At(n).left == x)
      && (s.At(n).right in xs ==> s.At(n).right == x)
      && (s.At(n).left != null ==> s.At(n).left in y.span)
      && (s.At(n).right != null ==> s.At(n).right in y.span)
  }

  lemma GraftedRank(s: Links, s': Links, y: Layout, xs: set<Node>, x: Node, e: Node, n: Node)
    requires Grafted(s, s', y, xs, x, e) && s'.Rank(e) == s.Rank(x)
    requires n in y.span && n !in xs
    ensures RankOk(s', n) <==> RankOk(s, n)
    ensures NotTwoTwo(s', n) <==> NotTwoTwo(s, n)
  {
    var c := s'.At(n);
    var l, r := s.At(n).left, s.At(n).right;
    assert l != null && l != x ==> s'.At(l).rank == s.At(l).rank;
    assert r != null && r != x ==> s'.At(r).rank == s.At(r).rank;
  }

  lemma RotatedGrafted(s: Links, y: Layout, s': Links, up: Node, down: Node, d: bool)
    requires Linked(s, y)
    requires up in y.span && down in y.span && s.At(down).Child(d) == up
    requires Rotated(s, s', up, down, d)
    ensures Grafted(s, s', y, {up, down}, down, up)
  {
    RotateDistinct(s, y, up, down, d);
    forall n | n in y.span && n != up && n != down
      ensures s'.At(n).rank == s.At(n).rank
      ensures s'.At(n).left == Swap(s.At(n).left, down, up)
      ensures s'.At(n).right == Swap(s.At(n).right, down, up)
      ensures s.At(n).left != up && s.At(n).right != up
      ensures s.At(n).left != null ==> s.At(n).left in y.span
      ensures s.At(n).right != null ==> s.At(n).right in y.span
    {
      assert LinkedAt(s, y, n);
    }
  }

  // All that the rank arguments need to know about one rotation.
  lemma RotateFacts(s: Links, y: Layout, up: Node, down: Node, d: bool)
    requires Linked(s, y)
    requires up in y.span && down in y.span && s.At(down).Child(d) == up
    ensures var s' := s.Rotate(up, down, d);
      && up != down && LinkedAt(s, y, up) && LinkedAt(s, y, down)
      && Linked(s', RotateLayout(y, up, down, d))
      && s'.At(up).rank == s.At(up).rank && s'.At(down).rank == s.At(down).rank
      && s'.At(up).Child(d) == s.At(up).Child(d) && s'.At(up).Child(!d) == down
      && s'.At(down).Child(d) == s.At(up).Child(!d) && s'.At(down).Child(!d) == s.At(down).Child(!d)
      && Grafted(s, s', y, {up, down}, down, up)
  {
    RotateDistinct(s, y, up, down, d);
    RotateCells(s, y, up, down, d);
    var s' := s.Rotate(up, down, d);
    RotateLinked(s, y, s', up, down, d);
    RotatedGrafted(s, y, s', up, down, d);
  }

  // Changing ranks inside xs, before or behind, does not matter.
  lemma Regrafted(s0: Links, s: Links, s1: Links, s2: Links, y: Layout, xs: set<Node>, ys: set<Node>, x: Node, e: Node)
    requires Grafted(s, s1, y, xs, x, e) && xs <= ys
    requires forall n :: n in y.span && n !in ys ==> s.At(n) == s0.At(n) && s2.At(n) == s1.At(n)
    requires forall n :: n in y.span && n !in ys ==>
      (s.At(n).left in ys ==> s.At(n).left == x) && (s.At(n).right in ys ==> s.At(n).right == x)
    ensures Grafted(s0, s2, y, ys, x, e)
  {
    forall n | n in y.span && n !in ys
      ensures s2.At(n) == s1.At(n) && s1.At(n).rank == s.At(n).rank
    {
    }
  }

  lemma ChildrenApart(s: Links, y: Layout, up: Node, down: Node, d: bool)
    requires Linked(s, y)
    requires up in y.span && down in y.span && s.At(down).Child(d) == up
    ensures var a, b, c := s.At(up).Child(d), s.At(up).Child(!d), s.At(down).Child(!d);
      && a != up && a != down && b != up && b != down && c != up && c != down
      && (a != null ==> a != b && a != c && a in y.span) && (b != null ==> b != c && b in y.span)
      && (c != null ==> c in y.span)
  {
    assert LinkedAt(s, y, up) && LinkedAt(s, y, down);
  }

  // The rank rules carry over to the new tree once the moved nodes obey them.
  lemma GraftedAll(s: Links, s': Links, y: Layout, y': Layout, xs: set<Node>, a: Node, b: Node, x: Node, e: Node)
    requires xs == {a, b, x}
    requires Grafted(s, s', y, xs, x, e) && s'.Rank(e) == s.Rank(x)
    requires Linked(s', y') && y'.span.Keys == y.span.Keys && RankedExcept(s, y, x)
    requires RankOk(s', a) && RankOk(s', b) && RankOk(s', x)
    ensures IsWavl(s', y')
  {
    hide RankOk;
    hide Linked;
    forall n | n in y'.span
      ensures RankOk(s', n)
    {
      if n !in xs {
        GraftedRank(s, s', y, xs, x, e, n);
        assert RankOk(s, n);
      }
    }
  }

  lemma GraftedAvl(s: Links, s': Links, y: Layout, y': Layout, xs: set<Node>, a: Node, b: Node, x: Node, e: Node)
    requires xs == {a, b, x}
    requires Grafted(s, s', y, xs, x, e) && s'.Rank(e) == s.Rank(x)
    requires y'.span.Keys == y.span.Keys
    requires NotTwoTwo(s', a) && NotTwoTwo(s', b) && NotTwoTwo(s', x)
    ensures AvlExcept(s, y, x) ==> AvlExcept(s', y', null)
  {
    hide NotTwoTwo;
    if AvlExcept(s, y, x) {
      forall n | n in y'.span
        ensures NotTwoTwo(s', n)
      {
        if n !in xs {
          GraftedRank(s, s', y, xs, x, e, n);
          assert NotTwoTwo(s, n);
        }
      }
    }
  }

  ghost predicate SameOutside(s: Links, s': Links, xs: set<Node>) {
    SameLinks(s, s') && (forall n :: n in s.at && n !in xs ==> s'.at[n] == s.at[n])
  }

  // ---------- one rotation ----------

  lemma RotateOnce(s: Links, y: Layout, s': Links, up: Node, down: Node, d: bool)
    requires Linked(s, y)
    requires up in y.span && down in y.span && s.At(down).Child(d) == up
    requires SameOutside(s.Rotate(up, down, d), s', {up, down})
    ensures Linked(s', RotateLayout(y, up, down, d))
    ensures Grafted(s, s', y, {up, down}, down, up)
    ensures var outer, inner, other := s.At(up).Child(d), s.At(up).Child(!d), s.At(down).Child(!d);
      && s'.At(up).Child(d) == outer && s'.At(up).Child(!d) == down
      && s'.At(down).Child(d) == inner && s'.At(down).Child(!d) == other
      && s'.Rank(outer) == s.Rank(outer) && s'.Rank(inner) == s.Rank(inner) && s'.Rank(other) == s.Rank(other)
  {
    hide Linked, Links.Rotate, LinkedAt;
    RotateFacts(s, y, up, down, d);
    var s1 := s.Rotate(up, down, d);
    SameLinksLinked(s1, s', RotateLayout(y, up, down, d));
    ChildrenApart(s, y, up, down, d);
    Regrafted(s, s, s1, s', y, {up, down}, {up, down}, down, up);
    RankKept(s, s', y, {up, down}, down, up, s.At(up).Child(d));
    RankKept(s, s', y, {up, down}, down, up, s.At(up).Child(!d));
    RankKept(s, s', y, {up, down}, down, up, s.At(down).Child(!d));
  }

  lemma RankKept(s: Links, s': Links, y: Layout, xs: set<Node>, x: Node, e: Node, c: Node?)
    requires Grafted(s, s', y, xs, x, e) && (c != null ==> c in y.span && c !in xs)
    ensures s'.Rank(c) == s.Rank(c)
  {
    if c != null {
      assert s'.At(c).rank == s.At(c).rank;
    }
  }

  // A rotation followed by demoting the node that went down.
  lemma RotateInsertOnce(s: Links, y: Layout, up1: Node, down: Node, d: bool)
    requires Linked(s, y) && RankedExcept(s, y, down)
    requires up1 in y.span && down in y.span && s.At(down).Child(d) == up1
    requires s.Rank(up1) == s.Rank(down) == s.Rank(s.At(down).Child(!d)) + 2
    requires OneTwo(s, up1) && s.Rank(s.At(up1).Child(!d)) + 1 < s.Rank(down)
    ensures var s', y' := RotateInsert(s, up1, down, d), RotateLayout(y, up1, down, d);
      && IsWavl(s', y') && y'.order == y.order
      && (AvlExcept(s, y, down) ==> AvlExcept(s', y', null))
  {
    var s', y' := RotateInsert(s, up1, down, d), RotateLayout(y, up1, down, d);
    RotateFacts(s, y, up1, down, d);
    RotateOnce(s, y, s', up1, down, d);
    assert RankOk(s', up1) && RankOk(s', down) && NotTwoTwo(s', up1) && NotTwoTwo(s', down);
    hide *;
    GraftedAll(s, s', y, y', {up1, down}, up1, up1, down, up1);
    GraftedAvl(s, s', y, y', {up1, down}, up1, up1, down, up1);
  }

  // ---------- two rotations ----------

  ghost predicate Zigzag(s: Links, y: Layout, up2: Node, up1: Node, down: Node, d: bool) {
    && Linked(s, y)
    && up1 in y.span && down in y.span && s.At(down).Child(d) == up1
    && up2 in y.span && s.At(up1).Child(!d) == up2
  }

  ghost function ZigzagLayout(y: Layout, up2: Node, up1: Node, down: Node, d: bool): (y': Layout)
    requires up2 in y.span && up1 in y.span && down in y.span
    ensures y'.order == y.order && y'.span.Keys == y.span.Keys
  {
    RotateLayout(RotateLayout(y, up2, up1, !d), up2, down, d)
  }

  ghost predicate TwoRotations(s: Links, s1: Links, s': Links, up2: Node, up1: Node, down: Node, d: bool) {
    && SameOutside(s.Rotate(up2, up1, !d), s1, {up2, up1})
    && SameOutside(s1.Rotate(up2, down, d), s', {up2, up1, down})
  }

  lemma ZigzagMiddle(s: Links, y: Layout, s1: Links, s': Links, up2: Node, up1: Node, down: Node, d: bool)
    requires Zigzag(s, y, up2, up1, down, d) && TwoRotations(s, s1, s', up2, up1, down, d)
    ensures Linked(s1, RotateLayout(y, up2, up1, !d)) && s1.At(down).Child(d) == up2
    ensures up1 != down && up2 != down && up1 != up2
    ensures s1.At(up2).Child(d) == up1 && s1.At(down).Child(!d) == s.At(down).Child(!d)
    ensures s1.At(up2).Child(!d) == s.At(up2).Child(!d)
    ensures s1.At(up1).Child(d) == s.At(up1).Child(d) && s1.At(up1).Child(!d) == s.At(up2).Child(d)
    ensures Grafted(s, s1, y, {up2, up1}, up1, up2)
  {
    ChildrenApart(s, y, up1, down, d);
    ChildrenApart(s, y, up2, up1, !d);
    RotateOnce(s, y, s1, up2, up1, !d);
    assert s1.At(down).rank == s.At(down).rank;
  }

  lemma ZigzagLinked(s: Links, y: Layout, s1: Links, s': Links, up2: Node, up1: Node, down: Node, d: bool)
    requires Zigzag(s, y, up2, up1, down, d) && TwoRotations(s, s1, s', up2, up1, down, d)
    ensures Linked(s', ZigzagLayout(y, up2, up1, down, d))
  {
    ZigzagMiddle(s, y, s1, s', up2, up1, down, d);
    var y1 := RotateLayout(y, up2, up1, !d);
    hide Linked;
    RotateFacts(s1, y1, up2, down, d);
    SameLinksLinked(s1.Rotate(up2, down, d), s', RotateLayout(y1, up2, down, d));
  }

  lemma GraftedAt(s: Links, s': Links, y: Layout, xs: set<Node>, x: Node, e: Node, n: Node)
    requires Grafted(s, s', y, xs, x, e) && n in y.span && n !in xs
    ensures s'.At(n).rank == s.At(n).rank
    ensures s'.At(n).left == Swap(s.At(n).left, x, e) && s'.At(n).right == Swap(s.At(n).right, x, e)
    ensures (s.At(n).left in xs ==> s.At(n).left == x) && (s.At(n).right in xs ==> s.At(n).right == x)
  {
  }

  lemma OutsideAt(s: Links, s': Links, xs: set<Node>, n: Node)
    requires SameOutside(s, s', xs) && n !in xs
    ensures s'.At(n) == s.At(n)
  {
  }

  lemma OnlyParent(s: Links, y: Layout, n: Node, c: Node, p: Node)
    requires Linked(s, y) && n in y.span && p in y.span && n != p
    requires s.At(p).left == c || s.At(p).right == c
    ensures s.At(n).left != c && s.At(n).right != c
    ensures s.At(n).left != null ==> s.At(n).left in y.span
    ensures s.At(n).right != null ==> s.At(n).right in y.span
  {
    assert LinkedAt(s, y, n) && LinkedAt(s, y, p);
  }

  lemma ZigzagParts(s: Links, y: Layout, s1: Links, s': Links, up2: Node, up1: Node, down: Node, d: bool)
    requires Zigzag(s, y, up2, up1, down, d) && TwoRotations(s, s1, s', up2, up1, down, d)
    ensures Linked(s, y) && up2 in y.span && up1 in y.span && down in y.span
    ensures s.At(down).left == up1 || s.At(down).right == up1
    ensures s.At(up1).left == up2 || s.At(up1).right == up2
    ensures RotateLayout(y, up2, up1, !d).span.Keys == y.span.Keys
    ensures SameOutside(s1.Rotate(up2, down, d), s', {up2, up1, down})
  {
    hide Linked, Links.Rotate, SameOutside;
  }

  lemma SwapTwice(c: Node?, up1: Node, up2: Node, down: Node)
    requires c != up1 && c != up2
    ensures Swap(Swap(c, up1, up2), down, up2) == Swap(c, down, up2)
  {
  }

  lemma ZigzagGraftedAt(s: Links, y: Layout, s1: Links, s': Links, up2: Node, up1: Node, down: Node, d: bool, n: Node)
    requires Zigzag(s, y, up2, up1, down, d) && TwoRotations(s, s1, s', up2, up1, down, d)
    requires n in y.span && n !in {up2, up1, down}
    ensures s'.At(n).rank == s.At(n).rank
    ensures s'.At(n).left == Swap(s.At(n).left, down, up2)
    ensures s'.At(n).right == Swap(s.At(n).right, down, up2)
    ensures s.At(n).left in {up2, up1, down} ==> s.At(n).left == down
    ensures s.At(n).right in {up2, up1, down} ==> s.At(n).right == down
    ensures s.At(n).left != null ==> s.At(n).left in y.span
    ensures s.At(n).right != null ==> s.At(n).right in y.span
  {
    ZigzagParts(s, y, s1, s', up2, up1, down, d);
    hide *;
    ZigzagMiddle(s, y, s1, s', up2, up1, down, d);
    RotateFacts(s1, RotateLayout(y, up2, up1, !d), up2, down, d);
    OnlyParent(s, y, n, up1, down);
    OnlyParent(s, y, n, up2, up1);
    var s2, y1 := s1.Rotate(up2, down, d), RotateLayout(y, up2, up1, !d);
    OutsideAt(s2, s', {up2, up1, down}, n);
    GraftedAt(s, s1, y, {up2, up1}, up1, up2, n);
    GraftedAt(s1, s2, y1, {up2, down}, down, up2, n);
    SwapTwice(s.At(n).left, up1, up2, down);
    SwapTwice(s.At(n).right, up1, up2, down);
  }

  // Outside the three nodes, only the link to down now leads to up2.
  lemma ZigzagGrafted(s: Links, y: Layout, s1: Links, s': Links, up2: Node, up1: Node, down: Node, d: bool)
    requires Zigzag(s, y, up2, up1, down, d) && TwoRotations(s, s1, s', up2, up1, down, d)
    ensures Grafted(s, s', y, {up2, up1, down}, down, up2)
  {
    hide Linked, TwoRotations, Zigzag, Links.Rotate, Swap, Links.At;
    forall n | n in y.span && n !in {up2, up1, down}
      ensures s'.At(n).rank == s.At(n).rank
      ensures s'.At(n).left == Swap(s.At(n).left, down, up2)
      ensures s'.At(n).right == Swap(s.At(n).right, down, up2)
      ensures s.At(n).left in {up2, up1, down} ==> s.At(n).left == down
      ensures s.At(n).right in {up2, up1, down} ==> s.At(n).right == down
      ensures s.At(n).left != null ==> s.At(n).left in y.span
      ensures s.At(n).right != null ==> s.At(n).right in y.span
    {
      ZigzagGraftedAt(s, y, s1, s', up2, up1, down, d, n);
    }
  }

  lemma ZigzagCells(s: Links, y: Layout, s1: Links, s': Links, up2: Node, up1: Node, down: Node, d: bool)
    requires Zigzag(s, y, up2, up1, down, d) && TwoRotations(s, s1, s', up2, up1, down, d)
    ensures s'.At(up2).Child(d) == up1 && s'.At(up2).Child(!d) == down
    ensures s'.At(up1).Child(d) == s.At(up1).Child(d) && s'.At(up1).Child(!d) == s.At(up2).Child(d)
    ensures s'.At(down).Child(d) == s.At(up2).Child(!d) && s'.At(down).Child(!d) == s.At(down).Child(!d)
  {
    ZigzagMiddle(s, y, s1, s', up2, up1, down, d);
    var y1 := RotateLayout(y, up2, up1, !d);
    Descendants(s1, y1, down, up2, up1);
    RotateFacts(s1, y1, up2, down, d);
    assert s1.Rotate(up2, down, d).At(up1).rank == s1.At(up1).rank;
  }

  // A grandchild x of a does not have a as its child.
  lemma Descendants(s: Links, y: Layout, a: Node, b: Node, x: Node)
    requires Linked(s, y) && a in y.span && b in y.span && x in y.span
    requires s.At(a).left == b || s.At(a).right == b
    requires s.At(b).left == x || s.At(b).right == x
    ensures s.At(x).left != a && s.At(x).right != a
  {
    assert LinkedAt(s, y, a) && LinkedAt(s, y, b) && LinkedAt(s, y, x);
  }

  lemma ZigzagRanks(s: Links, y: Layout, s': Links, up2: Node, up1: Node, down: Node, d: bool)
    requires Zigzag(s, y, up2, up1, down, d)
    requires Grafted(s, s', y, {up2, up1, down}, down, up2)
    ensures s'.Rank(s.At(up1).Child(d)) == s.Rank(s.At(up1).Child(d))
    ensures s'.Rank(s.At(up2).Child(d)) == s.Rank(s.At(up2).Child(d))
    ensures s'.Rank(s.At(up2).Child(!d)) == s.Rank(s.At(up2).Child(!d))
    ensures s'.Rank(s.At(down).Child(!d)) == s.Rank(s.At(down).Child(!d))
  {
    ChildrenApart(s, y, up1, down, d);
    ChildrenApart(s, y, up2, up1, !d);
    assert LinkedAt(s, y, up1) && LinkedAt(s, y, up2) && LinkedAt(s, y, down);
    var xs := {up2, up1, down};
    RankKept(s, s', y, xs, down, up2, s.At(up1).Child(d));
    RankKept(s, s', y, xs, down, up2, s.At(up2).Child(d));
    RankKept(s, s', y, xs, down, up2, s.At(up2).Child(!d));
    RankKept(s, s', y, xs, down, up2, s.At(down).Child(!d));
  }

  // Two rotations with the ranks of the three moved nodes changed on the way.
  lemma ZigzagAll(s: Links, y: Layout, s0: Links, s1: Links, s': Links, up2: Node, up1: Node, down: Node, d: bool)
    requires Zigzag(s, y, up2, up1, down, d) && RankedExcept(s, y, down)
    requires SameOutside(s, s0, {up2, up1, down})
    requires TwoRotations(s0, s1, s', up2, up1, down, d)
    ensures Linked(s', ZigzagLayout(y, up2, up1, down, d))
    ensures s'.At(up2).Child(d) == up1 && s'.At(up2).Child(!d) == down
    ensures s'.At(up1).Child(d) == s.At(up1).Child(d) && s'.At(up1).Child(!d) == s.At(up2).Child(d)
    ensures s'.At(down).Child(d) == s.At(up2).Child(!d) && s'.At(down).Child(!d) == s.At(down).Child(!d)
    ensures s'.Rank(s.At(up1).Child(d)) == s.Rank(s.At(up1).Child(d))
    ensures s'.Rank(s.At(up2).Child(d)) == s.Rank(s.At(up2).Child(d))
    ensures s'.Rank(s.At(up2).Child(!d)) == s.Rank(s.At(up2).Child(!d))
    ensures s'.Rank(s.At(down).Child(!d)) == s.Rank(s.At(down).Child(!d))
    ensures Grafted(s, s', y, {up2, up1, down}, down, up2)
  {
    var xs := {up2, up1, down};
    SameLinksLinked(s, s0, y);
    hide Linked;
    hide TwoRotations;
    ZigzagLinked(s0, y, s1, s', up2, up1, down, d);
    ZigzagGrafted(s0, y, s1, s', up2, up1, down, d);
    ZigzagCells(s0, y, s1, s', up2, up1, down, d);
    Regrafted(s, s0, s', s', y, xs, xs, down, up2);
    ZigzagRanks(s, y, s', up2, up1, down, d);
  }

  // The new ranks of the three nodes of a double rotation after an insert.
  lemma ZigzagTop(s: Links, s': Links, up2: Node, up1: Node, down: Node, d: bool)
    requires RankOk(s, up1) && RankOk(s, up2) && OneTwo(s, up1) && s.At(up1).Child(!d) == up2
    requires s.Rank(up1) == s.Rank(down) == s.Rank(s.At(down).Child(!d)) + 2
    requires s.Rank(up2) + 1 >= s.Rank(down)
    requires s'.Rank(up2) == s.Rank(up2) + 1
    requires s'.Rank(up1) == Dec(s.Rank(up1), 1) && s'.Rank(down) == Dec(s.Rank(down), 1)
    requires s'.At(up2).Child(d) == up1 && s'.At(up2).Child(!d) == down
    requires s'.At(up1).Child(d) == s.At(up1).Child(d) && s'.At(up1).Child(!d) == s.At(up2).Child(d)
    requires s'.At(down).Child(d) == s.At(up2).Child(!d) && s'.At(down).Child(!d) == s.At(down).Child(!d)
    requires s'.Rank(s.At(up1).Child(d)) == s.Rank(s.At(up1).Child(d))
    requires s'.Rank(s.At(up2).Child(d)) == s.Rank(s.At(up2).Child(d))
    requires s'.Rank(s.At(up2).Child(!d)) == s.Rank(s.At(up2).Child(!d))
    requires s'.Rank(s.At(down).Child(!d)) == s.Rank(s.At(down).Child(!d))
    ensures s'.Rank(up2) == s.Rank(down)
    ensures RankOk(s', up1) && RankOk(s', up2) && RankOk(s', down)
    ensures NotTwoTwo(s', up1) && NotTwoTwo(s', up2) && NotTwoTwo(s', down)
  {
    Sides(s, up1, d);
    Sides(s, up2, d);
    Sides(s', up1, d);
    Sides(s', up2, d);
    Sides(s', down, d);
    hide RankOk;
    hide NotTwoTwo;
    hide OneTwo;
  }

  lemma RotateInsertTwice(s: Links, y: Layout, up2: Node, up1: Node, down: Node, d: bool)
    requires Zigzag(s, y, up2, up1, down, d) && RankedExcept(s, y, down)
    requires s.Rank(up1) == s.Rank(down) == s.Rank(s.At(down).Child(!d)) + 2
    requires OneTwo(s, up1) && s.Rank(up2) + 1 >= s.Rank(down)
    ensures var s', y' := RotateInsertDouble(s, up2, up1, down, d), ZigzagLayout(y, up2, up1, down, d);
      && IsWavl(s', y') && y'.order == y.order
      && (AvlExcept(s, y, down) ==> AvlExcept(s', y', null))
  {
    var s0 := s.SetRank(up2, s.Rank(up2) + 1);
    var s2 := RotateDemote(s0, up2, up1, !d, up1);
    var s', y' := RotateInsertDouble(s, up2, up1, down, d), ZigzagLayout(y, up2, up1, down, d);
    ChildrenApart(s, y, up1, down, d);
    ChildrenApart(s, y, up2, up1, !d);
    assert RankOk(s, up1) && RankOk(s, up2);
    RotateInsertTwiceRanks(s, y, up2, up1, down, d);
    hide *;
    assert s'.Rank(up2) == s.Rank(up2) + 1;
    ZigzagAll(s, y, s0, s2, s', up2, up1, down, d);
    ZigzagTop(s, s', up2, up1, down, d);
    GraftedAll(s, s', y, y', {up2, up1, down}, up2, up1, down, up2);
    GraftedAvl(s, s', y, y', {up2, up1, down}, up2, up1, down, up2);
  }

  // Either case of the rotation after an insert repairs the tree.
  lemma RotateInsertOk(s: Links, y: Layout, up1: Node, down: Node, d: bool) returns (y': Layout)
    requires Linked(s, y) && RankedExcept(s, y, down)
    requires up1 in y.span && down in y.span && s.At(down).Child(d) == up1
    requires s.Rank(up1) == s.Rank(down) == s.Rank(s.At(down).Child(!d)) + 2
    requires OneTwo(s, up1)
    ensures y'.order == y.order && y'.span.Keys == y.span.Keys
    ensures var s' := RotateInsert(s, up1, down, d);
      IsWavl(s', y') && (AvlExcept(s, y, down) ==> AvlExcept(s', y', null))
  {
    var up2 := s.At(up1).Child(!d);
    InsertRotationCase(s, y, up1, down, d);
    if s.Rank(up2) + 1 >= s.Rank(down) {
      RotateInsertTwice(s, y, up2, up1, down, d);
      y' := ZigzagLayout(y, up2, up1, down, d);
    } else {
      RotateInsertOnce(s, y, up1, down, d);
      y' := RotateLayout(y, up1, down, d);
    }
  }

  lemma InsertRotationCase(s: Links, y: Layout, up1: Node, down: Node, d: bool)
    requires Linked(s, y) && RankedExcept(s, y, down)
    requires up1 in y.span && down in y.span && s.At(down).Child(d) == up1
    requires s.Rank(up1) == s.Rank(down) == s.Rank(s.At(down).Child(!d)) + 2
    ensures var up2 := s.At(up1).Child(!d);
      && s.Rank(down) > 1 && up1 in s.at && down in s.at && (up2 != null ==> up2 in s.at)
      && (s.Rank(up2) + 1 >= s.Rank(down) ==> s.Rank(up2) + 1 == s.Rank(down) && up2 != null && Zigzag(s, y, up2, up1, down, d))
  {
    ChildrenApart(s, y, up1, down, d);
    assert RankOk(s, up1);
    Sides(s, up1, d);
  }

  lemma SetRankSame(s: Links, n: Node, r: nat, xs: set<Node>)
    requires n in s.at && n in xs
    ensures SameOutside(s, s.SetRank(n, r), xs)
    ensures forall m :: s.SetRank(n, r).Rank(m) == if m == n then r else s.Rank(m)
  {
  }

  lemma LinkRank(s: Links, p: Node, d: bool, c: Node?)
    ensures s.at.Keys <= s.LinkNode(p, d, c).at.Keys
    ensures forall m :: s.LinkNode(p, d, c).Rank(m) == s.Rank(m)
  {
  }

  lemma MoveRank(s: Links, o: Node, n: Node?)
    ensures s.at.Keys <= s.MoveNode(o, n).at.Keys
    ensures forall m :: s.MoveNode(o, n).Rank(m) == s.Rank(m)
  {
  }

  lemma RotateRank(s: Links, up: Node, down: Node, d: bool)
    ensures s.at.Keys <= s.Rotate(up, down, d).at.Keys
    ensures forall m :: s.Rotate(up, down, d).Rank(m) == s.Rank(m)
  {
    var sub := s.At(up).Child(!d);
    var s1 := s.MoveNode(down, up);
    var s2 := s1.LinkNode(down, d, sub);
    MoveRank(s, down, up);
    LinkRank(s1, down, d, sub);
    LinkRank(s2, up, !d, down);
    hide Links.MoveNode;
    hide Links.LinkNode;
    hide Links.Rank;
  }

  lemma RotateDemoteFacts(s: Links, up: Node, down: Node, d: bool, x: Node, xs: set<Node>, a: Node, b: Node)
    requires x in s.at && x in xs && a != x && b != x
    ensures var s' := RotateDemote(s, up, down, d, x);
      && SameOutside(s.Rotate(up, down, d), s', xs) && s.at.Keys <= s'.at.Keys
      && s'.Rank(x) == Dec(s.Rank(x), 1)
      && s'.Rank(a) == s.Rank(a) && s'.Rank(b) == s.Rank(b)
  {
    RotateRank(s, up, down, d);
    hide Links.Rotate;
    var s1 := s.Rotate(up, down, d);
    SetRankSame(s1, x, Dec(s1.Rank(x), 1), xs);
  }

  lemma RotateInsertTwiceRanks(s: Links, y: Layout, up2: Node, up1: Node, down: Node, d: bool)
    requires Zigzag(s, y, up2, up1, down, d)
    ensures var s0 := s.SetRank(up2, s.Rank(up2) + 1);
      var s1 := RotateDemote(s0, up2, up1, !d, up1);
      var s' := RotateInsertDouble(s, up2, up1, down, d);
      && SameOutside(s, s0, {up2, up1, down})
      && TwoRotations(s0, s1, s', up2, up1, down, d)
      && s'.Rank(up2) == s.Rank(up2) + 1 && s'.Rank(up1) == Dec(s.Rank(up1), 1) && s'.Rank(down) == Dec(s.Rank(down), 1)
  {
    ChildrenApart(s, y, up1, down, d);
    ChildrenApart(s, y, up2, up1, !d);
    assert up2 in s.at && up1 in s.at && down in s.at && up2 != up1 && up1 != down && up2 != down;
    hide *;
    RotateDoubleRanks(s, up2, up1, down, d);
  }

  lemma RotateDoubleRanks(s: Links, up2: Node, up1: Node, down: Node, d: bool)
    requires up2 in s.at && up1 in s.at && down in s.at && up2 != up1 && up1 != down && up2 != down
    ensures var s0 := s.SetRank(up2, s.Rank(up2) + 1);
      var s1 := RotateDemote(s0, up2, up1, !d, up1);
      var s' := RotateInsertDouble(s, up2, up1, down, d);
      && SameOutside(s, s0, {up2, up1, down})
      && TwoRotations(s0, s1, s', up2, up1, down, d)
      && s'.Rank(up2) == s.Rank(up2) + 1 && s'.Rank(up1) == Dec(s.Rank(up1), 1) && s'.Rank(down) == Dec(s.Rank(down), 1)
  {
    var s0 := s.SetRank(up2, s.Rank(up2) + 1);
    SetRankSame(s, up2, s.Rank(up2) + 1, {up2, up1, down});
    RaisedRanks(s, s.Rank(up2) + 1, up2, up1, down);
    hide *;
    RotateDoubleFrom(s0, up2, up1, down, d);
    RotateDoubleIs(s, up2, up1, down, d);
  }

  lemma RotateDoubleIs(s: Links, up2: Node, up1: Node, down: Node, d: bool)
    ensures RotateInsertDouble(s, up2, up1, down, d) ==
      RotateDemote(RotateDemote(s.SetRank(up2, s.Rank(up2) + 1), up2, up1, !d, up1), up2, down, d, down)
  {
    hide RotateDemote;
    hide Links.SetRank;
  }

  lemma RaisedRanks(s: Links, r: nat, up2: Node, up1: Node, down: Node)
    requires up2 != up1 && up2 != down
    ensures s.at.Keys <= s.SetRank(up2, r).at.Keys
    ensures s.SetRank(up2, r).Rank(up2) == r
    ensures s.SetRank(up2, r).Rank(up1) == s.Rank(up1) && s.SetRank(up2, r).Rank(down) == s.Rank(down)
  {
  }

  lemma RotateDoubleFrom(s0: Links, up2: Node, up1: Node, down: Node, d: bool)
    requires up2 in s0.at && up1 in s0.at && down in s0.at && up2 != up1 && up1 != down && up2 != down
    ensures var s1 := RotateDemote(s0, up2, up1, !d, up1);
      var s' := RotateDemote(s1, up2, down, d, down);
      && TwoRotations(s0, s1, s', up2, up1, down, d)
      && s'.Rank(up2) == s0.Rank(up2) && s'.Rank(up1) == Dec(s0.Rank(up1), 1) && s'.Rank(down) == Dec(s0.Rank(down), 1)
  {
    var s1 := RotateDemote(s0, up2, up1, !d, up1);
    RotateDemoteFacts(s0, up2, up1, !d, up1, {up2, up1}, up2, down);
    hide RotateDemote;
    hide Links.Rotate;
    hide SameOutside;
    hide Links.Rank;
    RotateDemoteFacts(s1, up2, down, d, down, {up2, up1, down}, up2, up1);
  }

  // ---------- climbing after an insertion ----------

  lemma RankFrame(s: Links, s': Links, xs: set<Node>, n: Node)
    requires SameOutside(s, s', xs) && n in s.at && n !in xs
    requires s.At(n).left !in xs && s.At(n).right !in xs
    requires (s.At(n).left != null ==> s.At(n).left in s.at) && (s.At(n).right != null ==> s.At(n).right in s.at)
    ensures RankOk(s', n) == RankOk(s, n) && NotTwoTwo(s', n) == NotTwoTwo(s, n)
  {
  }

  lemma InsertDone(s: Links, y: Layout, node: Node)
    requires InsertPending(s, y, node)
    requires var p := s.At(node).parent; p != null ==> s.Rank(p) > s.Rank(node)
    ensures IsWavl(s, y)
    ensures AvlExcept(s, y, s.At(node).parent) ==> AvlExcept(s, y, null)
  {
    var p := s.At(node).parent;
    if p != null {
      assert LinkedAt(s, y, node);
      if s.At(node).left == null && s.At(node).right == null {
        assert RankOk(s, node);
      }
      assert RankOk(s, p) && NotTwoTwo(s, p);
    }
  }

  lemma PromoteOk(s: Links, y: Layout, node: Node, p: Node)
    requires InsertPending(s, y, node) && s.At(node).parent == p
    requires s.Rank(p) == s.Rank(node) == s.Rank(s.At(p).Child(!s.IsRight(node))) + 1
    ensures p in y.span && p in s.at
    ensures var s' := s.SetRank(p, s.Rank(node) + 1);
      RankOk(s', p) && NotTwoTwo(s', p) && OneTwo(s', p)
  {
    assert LinkedAt(s, y, node);
    var s' := s.SetRank(p, s.Rank(node) + 1);
    SetRankSame(s, p, s.Rank(node) + 1, {p});
    assert LinkedAt(s, y, p);
    Sides(s', p, s.IsRight(node));
  }

  lemma PromoteOther(s: Links, y: Layout, s': Links, node: Node, p: Node, n: Node)
    requires InsertPending(s, y, node) && s.At(node).parent == p && p in y.span
    requires SameOutside(s, s', {p})
    requires n in y.span && n != p && n != s.At(p).parent
    ensures RankOk(s', n)
    ensures AvlExcept(s, y, p) ==> NotTwoTwo(s', n)
  {
    assert RankOk(s, n);
    assert AvlExcept(s, y, p) ==> NotTwoTwo(s, n);
    assert LinkedAt(s, y, n);
    RankFrame(s, s', {p}, n);
  }

  lemma Promote(s: Links, y: Layout, node: Node, p: Node)
    requires InsertPending(s, y, node) && s.At(node).parent == p
    requires s.Rank(p) == s.Rank(node) == s.Rank(s.At(p).Child(!s.IsRight(node))) + 1
    ensures var s' := s.SetRank(p, s.Rank(node) + 1);
      && InsertPending(s', y, p)
      && (AvlExcept(s, y, p) ==> AvlExcept(s', y, s'.At(p).parent))
  {
    PromoteOk(s, y, node, p);
    var s' := s.SetRank(p, s.Rank(node) + 1);
    SetRankSame(s, p, s.Rank(node) + 1, {p});
    SameLinksLinked(s, s', y);
    var q := s.At(p).parent;
    PromoteAbove(s, y, s', node, p);
    hide RankOk;
    hide NotTwoTwo;
    hide Linked;
    forall n | n in y.span && n != q
      ensures RankOk(s', n)
      ensures AvlExcept(s, y, p) ==> NotTwoTwo(s', n)
    {
      if n != p {
        PromoteOther(s, y, s', node, p, n);
      }
    }
  }

  lemma PromoteAbove(s: Links, y: Layout, s': Links, node: Node, p: Node)
    requires InsertPending(s, y, node) && s.At(node).parent == p && p in y.span
    requires s.Rank(p) == s.Rank(node)
    requires s' == s.SetRank(p, s.Rank(node) + 1) && OneTwo(s', p)
    ensures var q := s'.At(p).parent;
      && q == s.At(p).parent
      && (q != null ==> RanksUnder(s', p, q, s'.At(q).Child(!s'.IsRight(p))))
  {
    assert LinkedAt(s, y, p);
    var q := s.At(p).parent;
    if q != null {
      assert LinkedAt(s, y, q);
      assert RankOk(s, q);
      Sides(s, q, s.IsRight(p));
    }
  }

  // ---------- rotating after a deletion ----------

  function RotateDelete(s: Links, up1: Node, down: Node, d: bool): Links {
    var up2 := s.At(up1).Child(!d);
    if up2 != null && s.Rank(s.At(up1).Child(d)) + 3 <= s.Rank(down) then
      ReRanked(s.Rotate(up2, up1, !d).Rotate(up2, down, d), up2, up1, down)
    else
      DemotedDown(s.Rotate(up1, down, d), up1, down)
  }

  // The child of node on side d has lost a rank and may be three below.
  ghost predicate DeletePending(s: Links, y: Layout, node: Node, d: bool) {
    var r, c, b := s.Rank(node), s.Rank(s.At(node).Child(d)), s.Rank(s.At(node).Child(!d));
    && Linked(s, y) && node in y.span
    && RankedExcept(s, y, node)
    && b < r <= b + 2 && c + 2 <= r <= c + 3
  }

  lemma RotateDeleteOnceRanks(s: Links, y: Layout, up1: Node, down: Node, d: bool)
    requires Linked(s, y)
    requires up1 in y.span && down in y.span && s.At(down).Child(d) == up1
    requires s.At(up1).Child(!d) == null || s.Rank(s.At(up1).Child(d)) + 3 > s.Rank(down)
    ensures var s1, s' := s.Rotate(up1, down, d), RotateDelete(s, up1, down, d);
      && SameOutside(s1, s', {up1, down})
      && s'.Rank(up1) == s.Rank(up1) + 1
      && var r, a, b := Dec(s.Rank(down), 1), s'.Rank(s'.At(down).left), s'.Rank(s'.At(down).right);
         s'.Rank(down) == if a + 2 == r && b + 2 == r then Dec(r, 1) else r
  {
    RotateFacts(s, y, up1, down, d);
    ChildrenApart(s, y, up1, down, d);
    var s1 := s.Rotate(up1, down, d);
    RotateRank(s, up1, down, d);
    assert s1.At(down).left != down && s1.At(down).right != down;
    assert up1 in s1.at && down in s1.at && up1 != down;
    hide Links.Rotate;
    hide Linked;
    hide LinkedAt;
    hide Grafted;
    DemoteDown(s1, up1, down);
    assert RotateDelete(s, up1, down, d) == DemotedDown(s1, up1, down);
  }

  function DemotedDown(s1: Links, up1: Node, down: Node): Links {
    var s2 := s1.SetRank(up1, s1.Rank(up1) + 1).SetRank(down, Dec(s1.Rank(down), 1));
    if s2.Rank(s2.At(down).left) + 2 == s2.Rank(down) && s2.Rank(s2.At(down).right) + 2 == s2.Rank(down) then
      s2.SetRank(down, Dec(s2.Rank(down), 1))
    else
      s2
  }

  lemma DemoteDown(s1: Links, up1: Node, down: Node)
    requires up1 in s1.at && down in s1.at && up1 != down
    requires s1.At(down).left != down && s1.At(down).right != down
    ensures var s' := DemotedDown(s1, up1, down);
      && SameOutside(s1, s', {up1, down})
      && s'.Rank(up1) == s1.Rank(up1) + 1
      && var r, a, b := Dec(s1.Rank(down), 1), s'.Rank(s'.At(down).left), s'.Rank(s'.At(down).right);
         s'.Rank(down) == if a + 2 == r && b + 2 == r then Dec(r, 1) else r
  {
    DemoteDownFrame(s1, up1, down);
    var r := Dec(s1.Rank(down), 1);
    var sa := s1.SetRank(up1, s1.Rank(up1) + 1);
    var s2 := sa.SetRank(down, r);
    assert DemotedDown(s1, up1, down) == if s2.Rank(s2.At(down).left) + 2 == s2.Rank(down) && s2.Rank(s2.At(down).right) + 2 == s2.Rank(down)
      then s2.SetRank(down, Dec(s2.Rank(down), 1)) else s2;
    RankSet(s1, up1, s1.Rank(up1) + 1);
    RankSet(sa, down, r);
    RankSet(s2, down, Dec(r, 1));
    hide *;
  }

  lemma DemoteDownFrame(s1: Links, up1: Node, down: Node)
    requires up1 in s1.at && down in s1.at && up1 != down
    ensures SameOutside(s1, DemotedDown(s1, up1, down), {up1, down})
  {
  }

  lemma RankSet(s: Links, n: Node, r: nat)
    requires n in s.at
    ensures var s' := s.SetRank(n, r);
      && s'.at.Keys == s.at.Keys && SameOutside(s, s', {n})
      && (forall m :: s'.Rank(m) == if m == n then r else s.Rank(m))
      && (forall m :: s'.At(m).left == s.At(m).left && s'.At(m).right == s.At(m).right)
  {
  }

  lemma RotateDeleteOnce(s: Links, y: Layout, up1: Node, down: Node, d: bool)
    requires Linked(s, y) && RankedExcept(s, y, down)
    requires up1 in y.span && down in y.span && s.At(down).Child(d) == up1
    requires s.Rank(down) == s.Rank(up1) + 1 == s.Rank(s.At(down).Child(!d)) + 3
    requires s.Rank(s.At(up1).Child(d)) + 3 > s.Rank(down)
    ensures var s', y' := RotateDelete(s, up1, down, d), RotateLayout(y, up1, down, d);
      IsWavl(s', y') && y'.order == y.order
  {
    var s', y' := RotateDelete(s, up1, down, d), RotateLayout(y, up1, down, d);
    RotateDistinct(s, y, up1, down, d);
    assert RankOk(s, up1);
    Sides(s, up1, d);
    RotateDeleteOnceRanks(s, y, up1, down, d);
    RotateOnce(s, y, s', up1, down, d);
    Sides(s', up1, d);
    Sides(s', down, d);
    assert RankOk(s', up1) && RankOk(s', down) by {
      hide RankOk;
      hide RotateDelete;
      hide Links.Rotate;
    }
    hide *;
    GraftedAll(s, s', y, y', {up1, down}, up1, up1, down, up1);
  }

  function ReRanked(s: Links, up2: Node, up1: Node, down: Node): Links {
    s.SetRank(up2, s.Rank(up2) + 2).SetRank(up1, Dec(s.Rank(up1), 1)).SetRank(down, Dec(s.Rank(down), 2))
  }

  lemma ReRankedOutside(s: Links, up2: Node, up1: Node, down: Node)
    requires up2 in s.at && up1 in s.at && down in s.at && up2 != up1 && up1 != down && up2 != down
    ensures var s' := ReRanked(s, up2, up1, down);
      && SameOutside(s, s', {up2, up1, down})
      && s'.Rank(up2) == s.Rank(up2) + 2 && s'.Rank(up1) == Dec(s.Rank(up1), 1) && s'.Rank(down) == Dec(s.Rank(down), 2)
  {
  }

  lemma RotateDeleteTwiceRanks(s: Links, y: Layout, up2: Node, up1: Node, down: Node, d: bool)
    requires Zigzag(s, y, up2, up1, down, d) && s.Rank(s.At(up1).Child(d)) + 3 <= s.Rank(down)
    ensures var s', s1 := RotateDelete(s, up1, down, d), s.Rotate(up2, up1, !d);
      && SameOutside(s, s, {up2, up1, down})
      && TwoRotations(s, s1, s', up2, up1, down, d)
      && s'.Rank(up2) == s.Rank(up2) + 2 && s'.Rank(up1) == Dec(s.Rank(up1), 1) && s'.Rank(down) == Dec(s.Rank(down), 2)
  {
    ChildrenApart(s, y, up1, down, d);
    ChildrenApart(s, y, up2, up1, !d);
    var s1 := s.Rotate(up2, up1, !d);
    var s2 := s1.Rotate(up2, down, d);
    RotateRank(s, up2, up1, !d);
    hide Links.Rotate;
    hide Linked;
    RotateRank(s1, up2, down, d);
    ReRankedOutside(s2, up2, up1, down);
    assert RotateDelete(s, up1, down, d) == ReRanked(s2, up2, up1, down);
  }

  lemma ZigzagDeleteTop(s: Links, s': Links, up2: Node, up1: Node, down: Node, d: bool)
    requires RankOk(s, up1) && RankOk(s, up2) && s.At(up1).Child(!d) == up2
    requires !(s.Rank(up2) + 2 == s.Rank(up1) == s.Rank(s.At(up1).Child(d)) + 2)
    requires s.Rank(down) == s.Rank(up1) + 1 == s.Rank(s.At(down).Child(!d)) + 3
    requires s.Rank(s.At(up1).Child(d)) + 3 <= s.Rank(down)
    requires s'.Rank(up2) == s.Rank(up2) + 2
    requires s'.Rank(up1) == Dec(s.Rank(up1), 1) && s'.Rank(down) == Dec(s.Rank(down), 2)
    requires s'.At(up2).Child(d) == up1 && s'.At(up2).Child(!d) == down
    requires s'.At(up1).Child(d) == s.At(up1).Child(d) && s'.At(up1).Child(!d) == s.At(up2).Child(d)
    requires s'.At(down).Child(d) == s.At(up2).Child(!d) && s'.At(down).Child(!d) == s.At(down).Child(!d)
    requires s'.Rank(s.At(up1).Child(d)) == s.Rank(s.At(up1).Child(d))
    requires s'.Rank(s.At(up2).Child(d)) == s.Rank(s.At(up2).Child(d))
    requires s'.Rank(s.At(up2).Child(!d)) == s.Rank(s.At(up2).Child(!d))
    requires s'.Rank(s.At(down).Child(!d)) == s.Rank(s.At(down).Child(!d))
    ensures s'.Rank(up2) == s.Rank(down)
    ensures RankOk(s', up1) && RankOk(s', up2) && RankOk(s', down)
  {
    Sides(s, up1, d);
    Sides(s, up2, d);
    Sides(s', up1, d);
    Sides(s', up2, d);
    Sides(s', down, d);
    hide RankOk;
  }

  lemma RotateDeleteTwice(s: Links, y: Layout, up2: Node, up1: Node, down: Node, d: bool)
    requires Zigzag(s, y, up2, up1, down, d) && RankedExcept(s, y, down)
    requires s.Rank(down) == s.Rank(up1) + 1 == s.Rank(s.At(down).Child(!d)) + 3
    requires s.Rank(s.At(up1).Child(d)) + 3 <= s.Rank(down)
    requires !(s.Rank(up2) + 2 == s.Rank(up1) == s.Rank(s.At(up1).Child(d)) + 2)
    ensures var s', y' := RotateDelete(s, up1, down, d), ZigzagLayout(y, up2, up1, down, d);
      IsWavl(s', y') && y'.order == y.order
  {
    var s', y' := RotateDelete(s, up1, down, d), ZigzagLayout(y, up2, up1, down, d);
    var s1 := s.Rotate(up2, up1, !d);
    ChildrenApart(s, y, up1, down, d);
    ChildrenApart(s, y, up2, up1, !d);
    assert RankOk(s, up1) && RankOk(s, up2);
    RotateDeleteTwiceRanks(s, y, up2, up1, down, d);
    ZigzagAll(s, y, s, s1, s', up2, up1, down, d);
    hide *;
    ZigzagDeleteTop(s, s', up2, up1, down, d);
    GraftedAll(s, s', y, y', {up2, up1, down}, up2, up1, down, up2);
  }

  // Either case of the rotation after a deletion repairs the tree.
  lemma RotateDeleteOk(s: Links, y: Layout, up1: Node, down: Node, d: bool) returns (y': Layout)
    requires Linked(s, y) && RankedExcept(s, y, down)
    requires up1 in y.span && down in y.span && s.At(down).Child(d) == up1
    requires s.Rank(down) == s.Rank(up1) + 1 == s.Rank(s.At(down).Child(!d)) + 3
    requires !(s.Rank(s.At(up1).left) + 2 == s.Rank(up1) == s.Rank(s.At(up1).right) + 2)
    ensures y'.order == y.order && y'.span.Keys == y.span.Keys
    ensures IsWavl(RotateDelete(s, up1, down, d), y')
  {
    var up2 := s.At(up1).Child(!d);
    assert RankOk(s, up1);
    Sides(s, up1, d);
    if s.Rank(s.At(up1).Child(d)) + 3 <= s.Rank(down) {
      assert LinkedAt(s, y, up1);
      RotateDeleteTwice(s, y, up2, up1, down, d);
      y' := ZigzagLayout(y, up2, up1, down, d);
    } else {
      RotateDeleteOnce(s, y, up1, down, d);
      y' := RotateLayout(y, up1, down, d);
    }
  }

  ghost predicate SameBeyond(s: Links, s': Links, y: Layout) {
    s'.at.Keys == s.at.Keys && (forall n :: n in s.at && n !in y.span ==> s'.at[n] == s.at[n])
  }

  lemma RotateFrame(s: Links, y: Layout, up: Node, down: Node, d: bool)
    requires Linked(s, y)
    requires up in y.span && down in y.span && s.At(down).Child(d) == up
    ensures SameBeyond(s, s.Rotate(up, down, d), y)
  {
    RotateDistinct(s, y, up, down, d);
    RotateCells(s, y, up, down, d);
    hide Links.Rotate;
  }

  lemma OutsideBeyond(s: Links, s': Links, y: Layout, xs: set<Node>)
    requires SameOutside(s, s', xs) && forall n :: n in xs ==> n in y.span
    ensures SameBeyond(s, s', y)
  {
  }

  lemma BeyondTrans(s: Links, s1: Links, s2: Links, y: Layout)
    requires SameBeyond(s, s1, y) && SameBeyond(s1, s2, y)
    ensures SameBeyond(s, s2, y)
  {
  }

  lemma RotateDeleteTwiceFrame(s: Links, y: Layout, up2: Node, up1: Node, down: Node, d: bool)
    requires Zigzag(s, y, up2, up1, down, d) && s.Rank(s.At(up1).Child(d)) + 3 <= s.Rank(down)
    ensures SameBeyond(s, RotateDelete(s, up1, down, d), y)
  {
    hide Links.Rotate, RotateDelete, Linked, SameOutside, SameBeyond, Grafted;
    RotateDeleteTwiceRanks(s, y, up2, up1, down, d);
    var r1 := s.Rotate(up2, up1, !d);
    var r2, s', y1 := r1.Rotate(up2, down, d), RotateDelete(s, up1, down, d), RotateLayout(y, up2, up1, !d);
    ZigzagMiddle(s, y, r1, s', up2, up1, down, d);
    RotateFrame(s, y, up2, up1, !d);
    RotateFrame(r1, y1, up2, down, d);
    SameSpans(r1, r2, y, y1);
    OutsideBeyond(r2, s', y, {up2, up1, down});
    BeyondTrans(s, r1, r2, y);
    BeyondTrans(s, r2, s', y);
  }

  lemma SameSpans(s: Links, s': Links, y: Layout, y1: Layout)
    requires SameBeyond(s, s', y1) && y1.span.Keys == y.span.Keys
    ensures SameBeyond(s, s', y)
  {
  }

  // Rotations do not touch memory beyond the nodes of the tree.
  lemma RotateDeleteFrame(s: Links, y: Layout, up1: Node, down: Node, d: bool)
    requires Linked(s, y)
    requires up1 in y.span && down in y.span && s.At(down).Child(d) == up1
    ensures SameBeyond(s, RotateDelete(s, up1, down, d), y)
  {
    var up2 := s.At(up1).Child(!d);
    if up2 != null && s.Rank(s.At(up1).Child(d)) + 3 <= s.Rank(down) {
      assert LinkedAt(s, y, up1);
      assert up2 in y.span && Zigzag(s, y, up2, up1, down, d);
      RotateDeleteTwiceFrame(s, y, up2, up1, down, d);
    } else {
      RotateFrame(s, y, up1, down, d);
      RotateDeleteOnceRanks(s, y, up1, down, d);
      hide Links.Rotate, RotateDelete, Linked;
      OutsideBeyond(s.Rotate(up1, down, d), RotateDelete(s, up1, down, d), y, {up1, down});
    }
  }

  // ---------- climbing after a deletion ----------

  lemma DeleteDone(s: Links, y: Layout, node: Node, d: bool)
    requires DeletePending(s, y, node, d)
    requires !(s.Rank(s.At(node).left) == 0 && s.Rank(s.At(node).right) == 0)
    requires s.Rank(node) <= s.Rank(s.At(node).Child(d)) + 2
    ensures IsWavl(s, y)
  {
    Sides(s, node, d);
    forall n | n in y.span
      ensures RankOk(s, n)
    {
    }
  }

  lemma DeleteUpOther(s: Links, y: Layout, s': Links, node: Node, d: bool, x: Node?, n: Node)
    requires DeletePending(s, y, node, d)
    requires x == null || x == s.At(node).Child(!d)
    requires SameOutside(s, s', {node} + Opt(x))
    requires n in y.span && n != node && n != x && n != s.At(node).parent
    ensures RankOk(s', n)
  {
    assert RankOk(s, n);
    assert LinkedAt(s, y, n) && LinkedAt(s, y, node);
    RankFrame(s, s', {node} + Opt(x), n);
  }

  lemma DeleteUpParent(s: Links, y: Layout, s': Links, node: Node, d: bool, x: Node?)
    requires DeletePending(s, y, node, d)
    requires x == null || x == s.At(node).Child(!d)
    requires SameOutside(s, s', {node} + Opt(x))
    requires s'.Rank(node) == s.Rank(node) - 1 && s.At(node).parent != null
    ensures var p := s.At(node).parent; var e := s.IsRight(node);
      var r, c, b := s'.Rank(p), s'.Rank(s'.At(p).Child(e)), s'.Rank(s'.At(p).Child(!e));
      && p in y.span && p != node && p != x && s'.At(node).parent == p && s'.IsRight(node) == e
      && b < r <= b + 2 && c + 2 <= r <= c + 3 && r > s.Rank(node)
  {
    var p := s.At(node).parent;
    assert LinkedAt(s, y, node) && LinkedAt(s, y, p);
    assert RankOk(s, p);
    Sides(s, p, s.IsRight(node));
  }

  // node, and with it perhaps the sibling x, was demoted: go on at the parent.
  lemma DeleteUp(s: Links, y: Layout, s': Links, node: Node, d: bool, x: Node?)
    requires DeletePending(s, y, node, d)
    requires x == null || x == s.At(node).Child(!d)
    requires SameOutside(s, s', {node} + Opt(x))
    requires s'.Rank(node) == s.Rank(node) - 1
    requires RankOk(s', node) && (x != null ==> RankOk(s', x))
    ensures var p := s.At(node).parent;
      if p == null then IsWavl(s', y) else DeletePending(s', y, p, s.IsRight(node)) && s'.Rank(p) > s.Rank(node)
  {
    var p := s.At(node).parent;
    SameLinksLinked(s, s', y);
    if p != null {
      DeleteUpParent(s, y, s', node, d, x);
    }
    hide RankOk;
    hide Linked;
    forall n | n in y.span && n != p
      ensures RankOk(s', n)
    {
      if n != node && n != x {
        DeleteUpOther(s, y, s', node, d, x, n);
      }
    }
  }

  ghost function Opt(n: Node?): set<Node> {
    if n == null then {} else {n}
  }

  // Case analysis of one step: only node is demoted.
  lemma DemoteOk(s: Links, y: Layout, node: Node, d: bool)
    requires DeletePending(s, y, node, d)
    requires (s.At(node).left == null && s.At(node).right == null) ||
      (s.Rank(node) == s.Rank(s.At(node).Child(d)) + 3 && s.Rank(node) == s.Rank(s.At(node).Child(!d)) + 2)
    ensures var s' := s.SetRank(node, s.Rank(node) - 1);
      && SameOutside(s, s', {node} + Opt(null)) && s'.Rank(node) == s.Rank(node) - 1 && RankOk(s', node)
  {
    var s' := s.SetRank(node, s.Rank(node) - 1);
    assert LinkedAt(s, y, node);
    Sides(s', node, d);
  }

  // Case analysis of one step: node and its 2,2-child x are demoted.
  lemma DemoteBothOk(s: Links, y: Layout, node: Node, d: bool, x: Node)
    requires DeletePending(s, y, node, d) && x == s.At(node).Child(!d)
    requires s.Rank(node) == s.Rank(s.At(node).Child(d)) + 3 == s.Rank(x) + 1
    requires s.Rank(s.At(x).left) + 3 == s.Rank(node) == s.Rank(s.At(x).right) + 3
    ensures var s' := s.SetRank(node, s.Rank(node) - 1).SetRank(x, s.Rank(x) - 1);
      && SameOutside(s, s', {node} + Opt(x)) && s'.Rank(node) == s.Rank(node) - 1
      && RankOk(s', node) && RankOk(s', x)
  {
    var s' := s.SetRank(node, s.Rank(node) - 1).SetRank(x, s.Rank(x) - 1);
    assert LinkedAt(s, y, node) && LinkedAt(s, y, x);
    assert RankOk(s, x);
    Sides(s', node, d);
  }

  // ---------- where a deletion starts ----------

  lemma UnlinkedGrafted(s: Links, y: Layout, s': Links, x: Node, d: bool, n: Node)
    requires Linked(s, y) && x in y.span && s.At(x).Child(!d) == null
    requires Moved(s, s', x, s.At(x).Child(d))
    requires n in y.span && n != x
    ensures s'.Rank(n) == s.Rank(n)
    ensures s'.At(n).left == (if s.At(n).left == x then s.At(x).Child(d) else s.At(n).left)
    ensures s'.At(n).right == (if s.At(n).right == x then s.At(x).Child(d) else s.At(n).right)
    ensures (s.At(n).left == x || s.At(n).right == x) ==> n == s.At(x).parent
    ensures s.At(n).left != null ==> s.At(n).left in y.span
    ensures s.At(n).right != null ==> s.At(n).right in y.span
  {
    UnlinkDistinct(s, y, x, d);
    assert LinkedAt(s, y, n);
  }

  lemma UnlinkPending(s: Links, y: Layout, s': Links, x: Node, d: bool)
    requires IsWavl(s, y) && x in y.span && s.At(x).Child(!d) == null
    requires Moved(s, s', x, s.At(x).Child(d))
    ensures LinkedAt(s, y, x)
    ensures var p, y' := s.At(x).parent, RemoveLayout(y, x);
      if p == null then IsWavl(s', y') else DeletePending(s', y', p, s.IsRight(x))
  {
    UnlinkLinked(s, y, s', x, d);
    UnlinkDistinct(s, y, x, d);
    var c, p, y' := s.At(x).Child(d), s.At(x).parent, RemoveLayout(y, x);
    assert RankOk(s, x);
    Sides(s, x, d);
    assert c != null ==> RankOk(s, c);
    assert s'.Rank(c) == s.Rank(c);
    if p != null {
      assert RankOk(s, p);
      Sides(s, p, s.IsRight(x));
      UnlinkedGrafted(s, y, s', x, d, p);
      var o := s.At(p).Child(!s.IsRight(x));
      if o != null {
        UnlinkedGrafted(s, y, s', x, d, o);
      }
    }
    forall n | n in y'.span && n != p
      ensures RankOk(s', n)
    {
      assert RankOk(s, n);
      UnlinkedGrafted(s, y, s', x, d, n);
      if s.At(n).left != null {
        UnlinkedGrafted(s, y, s', x, d, s.At(n).left);
      }
      if s.At(n).right != null {
        UnlinkedGrafted(s, y, s', x, d, s.At(n).right);
      }
    }
  }

  lemma ReplacedAt(s: Links, y: Layout, s': Links, x: Node, e: Node, n: Node)
    requires Linked(s, y) && x in y.span && e in s.at && e !in y.span
    requires Replaced(s, s', x, e)
    requires n in y.span && n != x
    ensures s'.Rank(n) == s.Rank(n)
    ensures s'.At(n).left == Swap(s.At(n).left, x, e) && s'.At(n).right == Swap(s.At(n).right, x, e)
    ensures s.At(n).left != null ==> s.At(n).left in y.span
    ensures s.At(n).right != null ==> s.At(n).right in y.span
  {
    ReplaceDistinct(s, y, x, e);
    assert LinkedAt(s, y, n);
  }

  lemma ReplacedRanks(s: Links, y: Layout, s': Links, x: Node, e: Node, n: Node)
    requires Linked(s, y) && x in y.span && e in s.at && e !in y.span
    requires Replaced(s, s', x, e)
    requires n in y.span
    ensures var m := if n == x then e else n;
      && s'.Rank(m) == s.Rank(n)
      && s'.Rank(s'.At(m).left) == s.Rank(s.At(n).left)
      && s'.Rank(s'.At(m).right) == s.Rank(s.At(n).right)
  {
    ReplaceDistinct(s, y, x, e);
    if n != x {
      ReplacedAt(s, y, s', x, e, n);
    }
    var l, r := s.At(n).left, s.At(n).right;
    if l != null && l != x {
      ReplacedAt(s, y, s', x, e, l);
    }
    if r != null && r != x {
      ReplacedAt(s, y, s', x, e, r);
    }
  }

  lemma ReplacePending(s: Links, y: Layout, s': Links, x: Node, e: Node, node: Node, d: bool)
    requires DeletePending(s, y, node, d) && x in y.span && e in s.at && e !in y.span
    requires Replaced(s, s', x, e)
    ensures LinkedAt(s, y, x)
    ensures DeletePending(s', ReplaceLayout(y, x, e), if node == x then e else node, d)
  {
    ReplaceLinked(s, y, s', x, e);
    var y' := ReplaceLayout(y, x, e);
    var node' := if node == x then e else node;
    ReplacedRanks(s, y, s', x, e, node);
    forall n | n in y'.span && n != node'
      ensures RankOk(s', n)
    {
      var m := if n == e then x else n;
      assert RankOk(s, m);
      ReplacedRanks(s, y, s', x, e, m);
    }
  }

  // ---------- where an insertion starts ----------

  // The ranks at a new leaf and at its parent.
  lemma LeafRanks(s: Links, y: Layout, x: Node, p: Node, d: bool)
    requires IsWavl(s, y)
    requires x !in y.span && p in y.span && s.At(p).Child(d) == null
    ensures var s', c := s.LinkLeaf(x, p, d), s.At(p).Child(!d);
      && LinkedAt(s, y, p) && LeafLayout(y, x, p, d).span.Keys == y.span.Keys + {x}
      && s'.At(x) == Cell(p, null, null, 1) && s'.At(p).Child(!d) == c && s'.IsRight(x) == d
      && s'.Rank(p) == s.Rank(p) && s'.Rank(c) == s.Rank(c) && RankOk(s', x) && NotTwoTwo(s', x)
  {
    LeafCell(s, y, x, p, d, p);
    LeafDomain(s, y, x, p, d);
    var c := s.At(p).Child(!d);
    assert LinkedAt(s, y, p);
    if c != null {
      LeafCell(s, y, x, p, d, c);
    }
    hide Links.LinkLeaf, LeafLayout, Linked;
  }

  lemma LeafElsewhere(s: Links, y: Layout, x: Node, p: Node, d: bool, n: Node)
    requires IsWavl(s, y) && n in y.span && n != p
    requires x !in y.span && p in y.span && s.At(p).Child(d) == null
    ensures RankOk(s.LinkLeaf(x, p, d), n)
    ensures NotTwoTwo(s, n) ==> NotTwoTwo(s.LinkLeaf(x, p, d), n)
  {
    assert RankOk(s, n) && LinkedAt(s, y, n);
    LeafCell(s, y, x, p, d, n);
    var l, r := s.At(n).left, s.At(n).right;
    if l != null {
      LeafCell(s, y, x, p, d, l);
    }
    if r != null {
      LeafCell(s, y, x, p, d, r);
    }
    hide Links.LinkLeaf, LeafLayout, Linked;
  }

  lemma LeafPending(s: Links, y: Layout, x: Node, p: Node, d: bool)
    requires IsWavl(s, y)
    requires x !in y.span && p in y.span && s.At(p).Child(d) == null
    ensures var s' := s.LinkLeaf(x, p, d);
      && LinkedAt(s, y, p) && s'.At(x) == Cell(p, null, null, 1)
      && InsertPending(s', LeafLayout(y, x, p, d), x)
      && (AvlExcept(s, y, null) ==> AvlExcept(s', LeafLayout(y, x, p, d), p))
  {
    LinkLeafLinked(s, y, x, p, d);
    LeafCell(s, y, x, p, d, p);
    Sides(s, p, d);
    LeafRanks(s, y, x, p, d);
    assert RankOk(s, p);
    var s', y' := s.LinkLeaf(x, p, d), LeafLayout(y, x, p, d);
    forall n | n in y'.span && n != p
      ensures RankOk(s', n)
      ensures AvlExcept(s, y, null) ==> NotTwoTwo(s', n)
    {
      if n != x {
        LeafElsewhere(s, y, x, p, d, n);
      }
    }
    hide Links.LinkLeaf, LeafLayout;
  }

  // ---------- size and height ----------

  function Pow2(n: nat): nat {
    if n == 0 then 1 else 2 * Pow2(n - 1)
  }

  lemma {:induction false} Pow2Monotone(a: nat, b: nat)
    requires a <= b
    ensures 1 <= Pow2(a) <= Pow2(b)
    decreases b
  {
    if a < b {
      Pow2Monotone(a, b - 1);
    } else if a > 0 {
      Pow2Monotone(a - 1, b - 1);
    }
  }

  lemma DoubleSize(r: nat, a: nat, b: nat)
    requires r >= 2 && a + 2 >= r && b + 2 >= r
    ensures Pow2((r + 1) / 2) <= Pow2((a + 1) / 2) + Pow2((b + 1) / 2)
  {
    Pow2Monotone((r - 1) / 2, (a + 1) / 2);
    Pow2Monotone((r - 1) / 2, (b + 1) / 2);
    assert (r + 1) / 2 == (r - 1) / 2 + 1;
  }

  // A subtree of rank r that obeys the rules has at least 2^ceil(r/2) - 1 nodes.
  lemma {:induction false} SizeBound(s: Links, y: Layout, n: Node, x: Node?)
    requires Linked(s, y) && RankedExcept(s, y, x) && n in y.span
    requires x != null ==> x in y.span && !(y.span[n].lo <= y.span[x].pos < y.span[n].hi)
    ensures LinkedAt(s, y, n)
    ensures Pow2((s.Rank(n) + 1) / 2) <= y.span[n].hi - y.span[n].lo + 1
    decreases if n in y.span && LinkedAt(s, y, n) then y.span[n].hi - y.span[n].lo else 0
  {
    assert LinkedAt(s, y, n);
    assert n != x;
    assert RankOk(s, n);
    var r, i, c := s.Rank(n), y.span[n], s.At(n);
    if r <= 2 {
      assert Pow2(1) == 2;
    } else {
      assert c.left != null && c.right != null;
      assert LinkedAt(s, y, c.left) && LinkedAt(s, y, c.right);
      SizeBound(s, y, c.left, x);
      SizeBound(s, y, c.right, x);
      hide *;
      DoubleSize(r, s.Rank(c.left), s.Rank(c.right));
    }
  }

  // While node waits for its repair, its tree is not too small for its rank.
  lemma PendingBound(s: Links, y: Layout, node: Node, d: bool)
    requires DeletePending(s, y, node, d)
    ensures Pow2(s.Rank(node) / 2) <= 2 * (|y.order| + 1)
  {
    var x := s.At(node).Child(!d);
    assert LinkedAt(s, y, node);
    if x != null {
      assert LinkedAt(s, y, x);
      SizeBound(s, y, x, node);
      Pow2Monotone(s.Rank(node) / 2, (s.Rank(x) + 1) / 2 + 1);
    } else {
      Pow2Monotone(s.Rank(node) / 2, 1);
    }
  }

  // The memory of a node that has left the tree does not matter.
  lemma RetiredRank(s: Links, y: Layout, x: Node, r: nat)
    requires Linked(s, y) && x in s.at && x !in y.span
    ensures Linked(s.SetRank(x, r), y)
    ensures forall n :: n in y.span ==> RankOk(s.SetRank(x, r), n) == RankOk(s, n)
    ensures forall n :: n in y.span ==> s.SetRank(x, r).Rank(n) == s.Rank(n)
    ensures forall n :: n in y.span ==> s.SetRank(x, r).At(n) == s.At(n)
    ensures forall n, d :: n in y.span ==> s.SetRank(x, r).Rank(s.At(n).Child(d)) == s.Rank(s.At(n).Child(d))
  {
    var s' := s.SetRank(x, r);
    SetRankSame(s, x, r, {x});
    SameLinksLinked(s, s', y);
    forall n | n in y.span
      ensures RankOk(s', n) == RankOk(s, n)
      ensures forall d :: s'.Rank(s.At(n).Child(d)) == s.Rank(s.At(n).Child(d))
    {
      assert LinkedAt(s, y, n);
      RankFrame(s, s', {x}, n);
    }
  }

  lemma RetiredPending(s: Links, y: Layout, x: Node, r: nat, p: Node?, d: bool)
    requires if p == null then IsWavl(s, y) else DeletePending(s, y, p, d)
    requires x in s.at && x !in y.span
    ensures if p == null then IsWavl(s.SetRank(x, r), y) else DeletePending(s.SetRank(x, r), y, p, d)
  {
    RetiredRank(s, y, x, r);
    var s' := s.SetRank(x, r);
    forall n | n in y.span && n != p
      ensures RankOk(s', n)
    {
      assert RankOk(s, n);
    }
  }
}
