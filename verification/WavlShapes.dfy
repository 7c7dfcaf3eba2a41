// The trees that one sequence of nodes can have: which node is above which.
module WavlShapes {
  import opened WavlLinks
  import opened WavlRanks
  import opened Wavl

  ghost predicate Distinct(order: seq<Node>) {
    forall i, j :: 0 <= i < j < |order| ==> order[i] != order[j]
  }

  // A valid tree of exactly the nodes of a sequence.
  ghost predicate Over(s: Links, y: Layout, order: seq<Node>) {
    && IsWavl(s, y) && y.order == order
    && s.at.Keys == y.span.Keys && (forall n :: n in y.span ==> n in order)
  }

  // The number of binary digits.
  function Log(n: nat): nat {
    if n == 0 then 0 else 1 + Log(n / 2)
  }

  lemma {:induction false} LogMonotone(a: nat, b: nat)
    requires a <= b
    ensures Log(a) <= Log(b)
    decreases b
  {
    if a > 0 {
      LogMonotone(a / 2, b / 2);
    }
  }

  // Sizes up to twice as large are at most one rank apart.
  lemma LogNear(a: nat, b: nat)
    requires a <= b <= 2 * a + 1
    ensures Log(a) <= Log(b) <= Log(a) + 1
  {
    LogMonotone(a, b);
    LogMonotone(b / 2, a);
  }

  // ---------- two trees under a new root ----------

  function Join(sl: Links, x: Node, sr: Links, r: nat): Links {
    var s := Links(x, (sl.at + sr.at)[x := Cell(null, sl.root, sr.root, r)]);
    var s := if sl.root == null then s else s.SetParent(sl.root, x);
    if sr.root == null then s else s.SetParent(sr.root, x)
  }

  function Shift(i: Span, d: nat): Span {
    Span(i.lo + d, i.pos + d, i.hi + d)
  }

  ghost function JoinLayout(yl: Layout, x: Node, yr: Layout): Layout {
    var d := |yl.order| + 1;
    Layout(yl.order + [x] + yr.order,
           map n | n in yl.span.Keys + yr.span.Keys + {x} ::
             if n == x then Span(0, |yl.order|, d + |yr.order|) else if n in yl.span then yl.span[n] else Shift(yr.span[n], d))
  }

  ghost predicate Joinable(sl: Links, yl: Layout, x: Node, sr: Links, yr: Layout, r: nat) {
    && Over(sl, yl, yl.order) && Over(sr, yr, yr.order) && Distinct(yl.order + [x] + yr.order)
    && OkRanks(r, sl.Rank(sl.root), sr.Rank(sr.root))
  }

  lemma PartsApart(sl: Links, yl: Layout, x: Node, sr: Links, yr: Layout, r: nat)
    requires Joinable(sl, yl, x, sr, yr, r)
    ensures x !in sl.at && x !in sr.at && sl.at.Keys !! sr.at.Keys
  {
    var order, d := yl.order + [x] + yr.order, |yl.order|;
    assert order[d] == x;
    hide IsWavl;
    forall n | n in sl.at
      ensures n != x && n !in sr.at
    {
      assert n in yl.span && n in yl.order;
      var i :| 0 <= i < d && yl.order[i] == n;
      assert order[i] == n;
      forall j | 0 <= j < |yr.order|
        ensures yr.order[j] != n
      {
        assert order[d + 1 + j] == yr.order[j];
      }
      assert n in sr.at ==> n in yr.order;
    }
    forall n | n in sr.at
      ensures n != x
    {
      assert n in yr.span && n in yr.order;
      var j :| 0 <= j < |yr.order| && yr.order[j] == n;
      assert order[d + 1 + j] == n;
    }
  }

  // The fields of the joined tree, and its layout.
  ghost predicate Joined(sl: Links, yl: Layout, x: Node, sr: Links, yr: Layout, r: nat, s: Links, y: Layout) {
    var d := |yl.order| + 1;
    && x !in sl.at && x !in sr.at && sl.at.Keys !! sr.at.Keys
    && s.root == x && s.at.Keys == y.span.Keys == sl.at.Keys + sr.at.Keys + {x} && s.at[x] == Cell(null, sl.root, sr.root, r)
    && y.order == yl.order + [x] + yr.order && y.span[x] == Span(0, d - 1, |y.order|)
    && (forall n :: n in sl.at && n in yl.span ==>
          s.at[n] == (if n == sl.root then sl.at[n].(parent := x) else sl.at[n]) && y.span[n] == yl.span[n])
    && (forall n :: n in sr.at && n in yr.span ==>
          s.at[n] == (if n == sr.root then sr.at[n].(parent := x) else sr.at[n]) && y.span[n] == Shift(yr.span[n], d))
  }

  lemma JoinSpans(sl: Links, yl: Layout, x: Node, sr: Links, yr: Layout, r: nat)
    requires Joinable(sl, yl, x, sr, yr, r)
    ensures var y, d := JoinLayout(yl, x, yr), |yl.order| + 1;
      && y.span.Keys == sl.at.Keys + sr.at.Keys + {x} && y.order == yl.order + [x] + yr.order && y.span[x] == Span(0, d - 1, |y.order|)
      && (forall n :: n in sl.at && n in yl.span ==> y.span[n] == yl.span[n])
      && (forall n :: n in sr.at && n in yr.span ==> y.span[n] == Shift(yr.span[n], d))
  {
    PartsApart(sl, yl, x, sr, yr, r);
    hide IsWavl, Distinct;
  }

  lemma JoinCells(sl: Links, yl: Layout, x: Node, sr: Links, yr: Layout, r: nat)
    requires Joinable(sl, yl, x, sr, yr, r)
    ensures var s := Join(sl, x, sr, r);
      && s.root == x && s.at.Keys == sl.at.Keys + sr.at.Keys + {x} && s.at[x] == Cell(null, sl.root, sr.root, r)
      && (forall n :: n in sl.at ==> s.at[n] == if n == sl.root then sl.at[n].(parent := x) else sl.at[n])
      && (forall n :: n in sr.at ==> s.at[n] == if n == sr.root then sr.at[n].(parent := x) else sr.at[n])
  {
    PartsApart(sl, yl, x, sr, yr, r);
    RootSpan(sl, yl);
    RootSpan(sr, yr);
    hide IsWavl, Distinct;
  }

  lemma JoinFacts(sl: Links, yl: Layout, x: Node, sr: Links, yr: Layout, r: nat)
    requires Joinable(sl, yl, x, sr, yr, r)
    ensures Joined(sl, yl, x, sr, yr, r, Join(sl, x, sr, r), JoinLayout(yl, x, yr))
  {
    PartsApart(sl, yl, x, sr, yr, r);
    JoinSpans(sl, yl, x, sr, yr, r);
    JoinCells(sl, yl, x, sr, yr, r);
    hide IsWavl, Distinct, Join, JoinLayout, Over;
  }

  // A node whose cell, children and span are those of another tree, d positions
  // further on, is linked as it is there.
  lemma MovedLinked(s: Links, y: Layout, s': Links, y': Layout, n: Node, d: nat)
    requires n in s.at && n in y.span && LinkedAt(s, y, n)
    requires n in s'.at && n in y'.span && y'.span[n] == Shift(y.span[n], d) && d + |y.order| <= |y'.order|
    requires y'.order[d + y.span[n].pos] == n
    requires s'.at[n].left == s.at[n].left && s'.at[n].right == s.at[n].right
    requires forall c: Node :: c == s.at[n].left || c == s.at[n].right ==> c in y.span && c in y'.span && c in s'.at && s'.at[c].parent == n && y'.span[c] == Shift(y.span[c], d)
    requires ParentOk(s', y', n, s'.at[n].parent)
    ensures LinkedAt(s', y', n)
  {
    hide ParentOk;
    var l, r := s.at[n].left, s.at[n].right;
    assert SideOk(s', y', n, false);
    assert SideOk(s', y', n, true);
  }

  lemma LeftCell(sl: Links, yl: Layout, x: Node, sr: Links, yr: Layout, r: nat, s: Links, y: Layout, n: Node)
    requires Joinable(sl, yl, x, sr, yr, r) && Joined(sl, yl, x, sr, yr, r, s, y) && n in yl.span
    ensures n in sl.at && n in s.at && n in y.span && y.span[n] == Shift(yl.span[n], 0) && n != x
    ensures s.at[n] == if n == sl.root then sl.at[n].(parent := x) else sl.at[n]
  {
    hide IsWavl;
  }

  lemma RightCell(sl: Links, yl: Layout, x: Node, sr: Links, yr: Layout, r: nat, s: Links, y: Layout, n: Node)
    requires Joinable(sl, yl, x, sr, yr, r) && Joined(sl, yl, x, sr, yr, r, s, y) && n in yr.span
    ensures n in sr.at && n in s.at && n in y.span && y.span[n] == Shift(yr.span[n], |yl.order| + 1) && n != x
    ensures s.at[n] == if n == sr.root then sr.at[n].(parent := x) else sr.at[n]
  {
    hide IsWavl;
  }

  // The family of a node of a valid tree.
  lemma Family(s: Links, y: Layout, n: Node)
    requires IsWavl(s, y) && n in y.span
    ensures n in s.at && LinkedAt(s, y, n) && RankOk(s, n)
    ensures s.root != null && s.root in y.span && s.root in s.at && s.at[s.root].parent == null
    ensures forall c: Node :: c == s.at[n].left || c == s.at[n].right ==> c in y.span && c in s.at && s.at[c].parent == n && c != s.root
    ensures s.at[n].parent == null <==> n == s.root
    ensures var p := s.at[n].parent; p != null ==> p in y.span && p in s.at && (s.at[p].left == n || s.at[p].right == n)
  {
    assert LinkedAt(s, y, n) && RankOk(s, n);
    NotEmpty(s, y, n);
  }

  lemma JoinLeft(sl: Links, yl: Layout, x: Node, sr: Links, yr: Layout, r: nat, s: Links, y: Layout, n: Node)
    requires Joinable(sl, yl, x, sr, yr, r) && Joined(sl, yl, x, sr, yr, r, s, y) && n in yl.span
    ensures n in s.at && n in y.span && LinkedAt(s, y, n) && RankOk(s, n)
  {
    hide *;
    JoinedFacts(sl, yl, x, sr, yr, r, s, y);
    Family(sl, yl, n);
    LeftCell(sl, yl, x, sr, yr, r, s, y, n);
    forall c: Node | c == sl.at[n].left || c == sl.at[n].right
      ensures c in y.span && c in s.at && s.at[c] == sl.at[c] && y.span[c] == Shift(yl.span[c], 0)
    {
      LeftCell(sl, yl, x, sr, yr, r, s, y, c);
    }
    if n != sl.root {
      LeftCell(sl, yl, x, sr, yr, r, s, y, sl.at[n].parent);
    }
    AtPosition(sl, yl, n);
    ParentMoved(s, y, n, s.at[n].parent);
    MovedLinked(sl, yl, s, y, n, 0);
    SameFamilyRanks(sl, s, n);
  }

  lemma JoinRight(sl: Links, yl: Layout, x: Node, sr: Links, yr: Layout, r: nat, s: Links, y: Layout, n: Node)
    requires Joinable(sl, yl, x, sr, yr, r) && Joined(sl, yl, x, sr, yr, r, s, y) && n in yr.span
    ensures n in s.at && n in y.span && LinkedAt(s, y, n) && RankOk(s, n)
  {
    hide *;
    JoinedFacts(sl, yl, x, sr, yr, r, s, y);
    Family(sr, yr, n);
    RightCell(sl, yl, x, sr, yr, r, s, y, n);
    forall c: Node | c == sr.at[n].left || c == sr.at[n].right
      ensures c in y.span && c in s.at && s.at[c] == sr.at[c] && y.span[c] == Shift(yr.span[c], |yl.order| + 1)
    {
      RightCell(sl, yl, x, sr, yr, r, s, y, c);
    }
    if n != sr.root {
      RightCell(sl, yl, x, sr, yr, r, s, y, sr.at[n].parent);
    }
    AtPosition(sr, yr, n);
    ParentMoved(s, y, n, s.at[n].parent);
    MovedLinked(sr, yr, s, y, n, |yl.order| + 1);
    SameFamilyRanks(sr, s, n);
  }

  lemma JoinedFacts(sl: Links, yl: Layout, x: Node, sr: Links, yr: Layout, r: nat, s: Links, y: Layout)
    requires Joinable(sl, yl, x, sr, yr, r) && Joined(sl, yl, x, sr, yr, r, s, y)
    ensures IsWavl(sl, yl) && IsWavl(sr, yr) && y.order == yl.order + [x] + yr.order
    ensures x in s.at && x in y.span && s.at[x] == Cell(null, sl.root, sr.root, r)
  {
    hide IsWavl;
  }

  lemma AtPosition(s: Links, y: Layout, n: Node)
    requires n in s.at && n in y.span && LinkedAt(s, y, n)
    ensures y.span[n].pos < |y.order| && y.order[y.span[n].pos] == n
  {
  }

  lemma ParentMoved(s: Links, y: Layout, n: Node, p: Node?)
    requires n in y.span && p != null && p in s.at && p in y.span && (s.at[p].left == n || s.at[p].right == n)
    ensures ParentOk(s, y, n, p)
  {
  }

  lemma SameFamilyRanks(s: Links, s': Links, n: Node)
    requires n in s.at && n in s'.at && s'.at[n].(parent := s.at[n].parent) == s.at[n]
    requires forall c: Node :: c == s.at[n].left || c == s.at[n].right ==> c in s.at && c in s'.at && s'.at[c] == s.at[c]
    requires RankOk(s, n)
    ensures RankOk(s', n)
  {
  }

  lemma JoinedRanks(sl: Links, yl: Layout, x: Node, sr: Links, yr: Layout, r: nat, s: Links, y: Layout)
    requires Joinable(sl, yl, x, sr, yr, r) && Joined(sl, yl, x, sr, yr, r, s, y)
    ensures RankOk(s, x)
  {
    hide Distinct;
    assert sl.root != null ==> LinkedAt(sl, yl, sl.root);
    assert sr.root != null ==> LinkedAt(sr, yr, sr.root);
    hide IsWavl;
  }

  lemma RootSide(sl: Links, yl: Layout, x: Node, sr: Links, yr: Layout, r: nat, s: Links, y: Layout)
    requires Joinable(sl, yl, x, sr, yr, r) && Joined(sl, yl, x, sr, yr, r, s, y)
    ensures x in s.at && x in y.span && y.span[x] == Span(0, |yl.order|, |y.order|) && |yl.order| < |y.order| && y.order[|yl.order|] == x
    ensures s.root == x && s.at[x].parent == null && SideOk(s, y, x, false) && SideOk(s, y, x, true)
  {
    hide Distinct;
    RootSpan(sl, yl);
    RootSpan(sr, yr);
    assert sl.root != null ==> LinkedAt(sl, yl, sl.root);
    assert sr.root != null ==> LinkedAt(sr, yr, sr.root);
    hide IsWavl;
  }

  lemma RootLinked(s: Links, y: Layout, x: Node)
    requires x in s.at && x in y.span && y.span[x].lo == 0 <= y.span[x].pos < y.span[x].hi == |y.order| && y.order[y.span[x].pos] == x
    requires s.root == x && s.at[x].parent == null && SideOk(s, y, x, false) && SideOk(s, y, x, true)
    ensures LinkedAt(s, y, x)
  {
    hide SideOk;
  }

  lemma JoinRoot(sl: Links, yl: Layout, x: Node, sr: Links, yr: Layout, r: nat, s: Links, y: Layout)
    requires Joinable(sl, yl, x, sr, yr, r) && Joined(sl, yl, x, sr, yr, r, s, y)
    ensures x in s.at && x in y.span && LinkedAt(s, y, x) && RankOk(s, x)
  {
    hide *;
    JoinedFacts(sl, yl, x, sr, yr, r, s, y);
    JoinedRanks(sl, yl, x, sr, yr, r, s, y);
    RootSide(sl, yl, x, sr, yr, r, s, y);
    RootLinked(s, y, x);
  }

  lemma OrderAt(s: Links, y: Layout, i: nat)
    requires IsWavl(s, y) && i < |y.order|
    ensures y.order[i] in y.span && y.span[y.order[i]].pos == i
  {
  }

  lemma JoinOrderAt(sl: Links, yl: Layout, x: Node, sr: Links, yr: Layout, r: nat, s: Links, y: Layout, i: nat)
    requires Joinable(sl, yl, x, sr, yr, r) && Joined(sl, yl, x, sr, yr, r, s, y) && i < |y.order|
    ensures y.order[i] in y.span && y.span[y.order[i]].pos == i
  {
    hide IsWavl, Distinct;
    var d := |yl.order|;
    if i < d {
      assert y.order[i] == yl.order[i];
      OrderAt(sl, yl, i);
      LeftCell(sl, yl, x, sr, yr, r, s, y, y.order[i]);
    } else if i > d {
      assert y.order[i] == yr.order[i - d - 1];
      OrderAt(sr, yr, i - d - 1);
      RightCell(sl, yl, x, sr, yr, r, s, y, y.order[i]);
    }
  }

  lemma JoinInOrder(sl: Links, yl: Layout, x: Node, sr: Links, yr: Layout, r: nat, s: Links, y: Layout, n: Node)
    requires Joinable(sl, yl, x, sr, yr, r) && Joined(sl, yl, x, sr, yr, r, s, y) && n in y.span
    ensures n in y.order
  {
    hide IsWavl, Distinct;
    assert y.order[|yl.order|] == x;
    if n in yl.span {
      assert n in yl.order;
    } else if n in yr.span {
      assert n in yr.order;
    }
  }

  lemma JoinOrder(sl: Links, yl: Layout, x: Node, sr: Links, yr: Layout, r: nat, s: Links, y: Layout)
    requires Joinable(sl, yl, x, sr, yr, r) && Joined(sl, yl, x, sr, yr, r, s, y)
    ensures forall i :: 0 <= i < |y.order| ==> y.order[i] in y.span && y.span[y.order[i]].pos == i
    ensures forall n :: n in y.span ==> n in y.order
  {
    hide IsWavl, Distinct, Over, Joinable;
    forall i | 0 <= i < |y.order|
      ensures y.order[i] in y.span && y.span[y.order[i]].pos == i
    {
      JoinOrderAt(sl, yl, x, sr, yr, r, s, y, i);
    }
    forall n | n in y.span
      ensures n in y.order
    {
      JoinInOrder(sl, yl, x, sr, yr, r, s, y, n);
    }
  }

  lemma JoinWavl(sl: Links, yl: Layout, x: Node, sr: Links, yr: Layout, r: nat)
    requires Joinable(sl, yl, x, sr, yr, r)
    ensures Over(Join(sl, x, sr, r), JoinLayout(yl, x, yr), yl.order + [x] + yr.order)
  {
    hide Join, JoinLayout, LinkedAt, RankOk, IsWavl, Distinct;
    var s, y := Join(sl, x, sr, r), JoinLayout(yl, x, yr);
    JoinFacts(sl, yl, x, sr, yr, r);
    JoinRoot(sl, yl, x, sr, yr, r, s, y);
    JoinOrder(sl, yl, x, sr, yr, r, s, y);
    forall n | n in yl.span
      ensures LinkedAt(s, y, n) && RankOk(s, n)
    {
      JoinLeft(sl, yl, x, sr, yr, r, s, y, n);
    }
    forall n | n in yr.span
      ensures LinkedAt(s, y, n) && RankOk(s, n)
    {
      JoinRight(sl, yl, x, sr, yr, r, s, y, n);
    }
    WavlFrom(s, y);
  }

  lemma WavlFrom(s: Links, y: Layout)
    requires s.root != null && s.root in y.span && s.at.Keys == y.span.Keys && s.at[s.root].parent == null
    requires forall i :: 0 <= i < |y.order| ==> y.order[i] in y.span && y.span[y.order[i]].pos == i
    requires forall n {:trigger LinkedAt(s, y, n)} :: n in y.span ==> LinkedAt(s, y, n)
    requires forall n {:trigger RankOk(s, n)} :: n in y.span ==> RankOk(s, n)
    ensures IsWavl(s, y)
  {
    hide LinkedAt, RankOk;
  }

  // ---------- trees over a sequence ----------

  function Max(a: nat, b: nat): nat {
    if a < b then b else a
  }

  ghost predicate NearRanks(a: nat, b: nat) {
    a <= b + 1 && b <= a + 1
  }

  lemma LogHalves(n: nat)
    requires 0 < n
    ensures NearRanks(Log(n / 2), Log(n - n / 2 - 1)) && Log(n) == 1 + Max(Log(n / 2), Log(n - n / 2 - 1))
  {
    LogNear(n - n / 2 - 1, n / 2);
  }

  lemma FitsTogether(sl: Links, yl: Layout, x: Node, sr: Links, yr: Layout)
    requires Over(sl, yl, yl.order) && Over(sr, yr, yr.order) && Distinct(yl.order + [x] + yr.order)
    requires NearRanks(sl.Rank(sl.root), sr.Rank(sr.root))
    ensures Joinable(sl, yl, x, sr, yr, 1 + Max(sl.Rank(sl.root), sr.Rank(sr.root)))
  {
    hide Over, Distinct;
  }

  lemma RootRank(sl: Links, yl: Layout, x: Node, sr: Links, yr: Layout, r: nat, s: Links, y: Layout)
    requires Joined(sl, yl, x, sr, yr, r, s, y)
    ensures s.Rank(s.root) == r
  {
  }

  // The tree with x at its root.
  lemma JoinAt(left: seq<Node>, x: Node, right: seq<Node>, sl: Links, yl: Layout, sr: Links, yr: Layout) returns (s: Links, y: Layout)
    requires Distinct(left + [x] + right) && Over(sl, yl, left) && Over(sr, yr, right)
    requires NearRanks(sl.Rank(sl.root), sr.Rank(sr.root))
    ensures Over(s, y, left + [x] + right) && s.Rank(s.root) == 1 + Max(sl.Rank(sl.root), sr.Rank(sr.root))
    ensures Joined(sl, yl, x, sr, yr, s.Rank(s.root), s, y)
    ensures yl.order == left && yr.order == right
  {
    hide *;
    var r := 1 + Max(sl.Rank(sl.root), sr.Rank(sr.root));
    OverOrder(sl, yl, left);
    OverOrder(sr, yr, right);
    FitsTogether(sl, yl, x, sr, yr);
    JoinWavl(sl, yl, x, sr, yr, r);
    JoinFacts(sl, yl, x, sr, yr, r);
    s, y := Join(sl, x, sr, r), JoinLayout(yl, x, yr);
    RootRank(sl, yl, x, sr, yr, r, s, y);
  }

  lemma OverOrder(s: Links, y: Layout, order: seq<Node>)
    requires Over(s, y, order)
    ensures y.order == order && Over(s, y, y.order)
  {
  }

  // What is beneath a node stays so.
  lemma JoinedLeft(sl: Links, yl: Layout, x: Node, sr: Links, yr: Layout, r: nat, s: Links, y: Layout, n: Node, k: nat)
    requires Joined(sl, yl, x, sr, yr, r, s, y) && Over(sl, yl, yl.order) && Beneath(yl, n, k)
    ensures Beneath(y, n, k)
  {
    hide IsWavl;
  }

  lemma JoinedRight(sl: Links, yl: Layout, x: Node, sr: Links, yr: Layout, r: nat, s: Links, y: Layout, n: Node, k: nat)
    requires Joined(sl, yl, x, sr, yr, r, s, y) && Over(sr, yr, yr.order) && Beneath(yr, n, k)
    ensures Beneath(y, n, |yl.order| + 1 + k)
  {
    hide IsWavl;
  }

  lemma JoinedTop(sl: Links, yl: Layout, x: Node, sr: Links, yr: Layout, r: nat, s: Links, y: Layout, k: nat)
    requires Joined(sl, yl, x, sr, yr, r, s, y) && k < |y.order|
    ensures Beneath(y, x, k)
  {
  }

  // A sequence cut at position i.
  lemma Cut(order: seq<Node>, i: nat) returns (left: seq<Node>, x: Node, right: seq<Node>)
    requires Distinct(order) && i < |order|
    ensures order == left + [x] + right && |left| == i && |right| == |order| - i - 1 && x == order[i]
    ensures Distinct(left) && Distinct(right)
  {
    left, x, right := order[..i], order[i], order[i + 1..];
  }

  // A tree of least rank.
  lemma {:induction false} Balanced(order: seq<Node>) returns (s: Links, y: Layout)
    requires Distinct(order)
    ensures Over(s, y, order) && s.Rank(s.root) == Log(|order|)
    decreases |order|
  {
    if order == [] {
      s, y := Links(null, map[]), Layout([], map[]);
    } else {
      LogHalves(|order|);
      hide *;
      var left, x, right := Cut(order, |order| / 2);
      var sl, yl := Balanced(left);
      var sr, yr := Balanced(right);
      s, y := JoinAt(left, x, right, sl, yl, sr, yr);
    }
  }

  // Whether no tree over n nodes has node k + d above position k, for d up to 2.
  predicate CannotTilt(n: nat, k: nat, d: nat) {
    if d == 1 then n == 3 && k == 1 else k + 2 == n - 1 || (n == 6 && k == 2)
  }

  // The sequences too short for the rule of RootFor.
  predicate Special(n: nat, k: nat, d: nat) {
    if d == 1 then (k == 1 && (n == 7 || n == 8)) || (n == 4 && k == 2) || (n == 6 && k == 3) || (n == 7 && k == 5) || (n == 8 && k == 6)
    else (n == 7 && k == 3) || (n == 8 && k == 4) || (n == 12 && k == 6) || (k == 2 && (n == 13 || n == 14)) || (n == 13 && k == 9) || (n == 14 && k == 10)
  }

  // Which node to take for the root, so that position k is beneath k + d and
  // both sides are about as high.
  function RootFor(n: nat, k: nat, d: nat): (i: nat)
    requires 0 < d && k + d < n
  {
    if Special(n, k, d) then
      if k + d == 2 || (k == 2 && d == 2) then k + d
      else if d == 1 then k - 1
      else if n == 7 || n == 8 then 2
      else if n == 12 then 4
      else if n == 13 then 5 else 6
    else if k + d + d < (n - 1) / 2 + 1 then (n - 1) / 2
    else if k > n / 2 then n / 2
    else k + d
  }

  lemma RootInside(n: nat, k: nat, d: nat)
    requires (d == 1 || d == 2) && k + d < n && !CannotTilt(n, k, d)
    ensures var i := RootFor(n, k, d);
      && i < n && (k + d < i || i < k || i == k + d)
      && (k + d < i ==> !CannotTilt(i, k, d)) && (i < k ==> !CannotTilt(n - i - 1, k - i - 1, d))
  {
  }

  ghost predicate TiltedRank(n: nat, r: nat) {
    Log(n) <= r <= Log(n) + 1 && (n <= 5 ==> r == Log(n))
  }

  lemma SmallLogs()
    ensures Log(0) == 0 && Log(1) == 1 && Log(2) == Log(3) == 2 && Log(4) == Log(5) == Log(6) == Log(7) == 3
    ensures Log(8) == Log(9) == Log(10) == Log(11) == Log(12) == Log(13) == Log(14) == 4
  {
    assert Log(1) == 1 + Log(0);
    assert Log(2) == 1 + Log(1) == Log(3);
    assert Log(4) == 1 + Log(2) == Log(5);
    assert Log(6) == 1 + Log(3) == Log(7);
    assert Log(8) == 1 + Log(4) == Log(9);
    assert Log(10) == 1 + Log(5) == Log(11);
    assert Log(12) == 1 + Log(6) == Log(13);
    assert Log(14) == 1 + Log(7);
  }

  // Two sides of about the same size, the smaller of which may be a rank higher
  // than it needs to be.
  lemma HalvesNear(n: nat, m: nat, a: nat, b: nat)
    requires 3 <= n && m == (n - 1) / 2 && Log(m) <= a <= Log(m) + 1 && b == Log(n - m - 1)
    ensures NearRanks(a, b) && Log(n) <= 1 + Max(a, b) <= Log(n) + 1
  {
    var h := n / 2;
    assert n - m - 1 == h && m <= h <= m + 1;
    LogNear(m, h);
    assert Log(n) == 1 + Log(h);
    hide *;
    NearMax(Log(n), Log(m), Log(h), a);
  }

  lemma NearMax(n: nat, m: nat, b: nat, a: nat)
    requires n == 1 + b && m <= a <= m + 1 && m <= b <= m + 1
    ensures NearRanks(a, b) && n <= 1 + Max(a, b) <= n + 1
  {
  }

  // The ranks of the two sides of the chosen root.
  ghost predicate SideRanks(n: nat, k: nat, d: nat, i: nat, a: nat, b: nat) {
    && i < n && (if k + d < i then TiltedRank(i, a) else a == Log(i))
    && (if i < k then TiltedRank(n - i - 1, b) else b == Log(n - i - 1))
  }

  lemma TiltedHalves(n: nat, m: nat, a: nat, b: nat)
    requires 3 <= n && m == (n - 1) / 2 && TiltedRank(m, a) && b == Log(n - m - 1)
    ensures NearRanks(a, b) && NearRanks(b, a) && TiltedRank(n, 1 + Max(a, b)) && Max(a, b) == Max(b, a)
  {
    HalvesNear(n, m, a, b);
    SmallLogs();
    hide Log;
  }

  lemma RootRule(n: nat, k: nat, d: nat)
    requires (d == 1 || d == 2) && k + d < n && !CannotTilt(n, k, d) && !Special(n, k, d)
    ensures var i := RootFor(n, k, d);
      && i < n && (k + d < i ==> i == (n - 1) / 2 && 3 <= n) && (i < k ==> n - i - 1 == (n - 1) / 2 && 3 <= n)
      && (!(k + d < i) && !(i < k) ==> i == k + d && (n - 1) / 2 < k + d + d && k <= n / 2)
  {
  }

  lemma RootRanks(n: nat, k: nat, d: nat, a: nat, b: nat)
    requires (d == 1 || d == 2) && k + d < n && !CannotTilt(n, k, d)
    requires SideRanks(n, k, d, RootFor(n, k, d), a, b)
    ensures NearRanks(a, b) && TiltedRank(n, 1 + Max(a, b))
  {
    hide Special, CannotTilt, RootFor, Log, NearRanks, TiltedRank, Max;
    var i := RootFor(n, k, d);
    if Special(n, k, d) {
      SpecialRanks(n, k, d, a, b);
    } else {
      RootRule(n, k, d);
      if k + d < i {
        TiltedHalves(n, i, a, b);
      } else if i < k {
        TiltedHalves(n, n - i - 1, b, a);
      } else {
        RootNear(n, k, d);
      }
    }
  }

  lemma SpecialRanks(n: nat, k: nat, d: nat, a: nat, b: nat)
    requires (d == 1 || d == 2) && k + d < n && Special(n, k, d) && SideRanks(n, k, d, RootFor(n, k, d), a, b)
    ensures NearRanks(a, b) && TiltedRank(n, 1 + Max(a, b))
  {
    SmallLogs();
    hide Log;
  }

  // Two sides that are at most about twice as large as each other.
  lemma SidesNear(n: nat, a: nat, b: nat)
    requires n == a + b + 1 && 5 < n && a <= b <= 2 * a + 1
    ensures Log(a) <= Log(b) <= Log(a) + 1 && Log(n) <= 1 + Log(b) <= Log(n) + 1
  {
    var h := n / 2;
    assert h <= b <= 2 * h + 1;
    LogNear(a, b);
    LogNear(h, b);
    assert Log(n) == 1 + Log(h);
  }

  lemma RootNear(n: nat, k: nat, d: nat)
    requires (d == 1 || d == 2) && k + d < n && !CannotTilt(n, k, d) && !Special(n, k, d)
    requires (n - 1) / 2 < k + d + d && k <= n / 2
    ensures NearRanks(Log(k + d), Log(n - k - d - 1)) && TiltedRank(n, 1 + Max(Log(k + d), Log(n - k - d - 1)))
  {
    if n <= 14 {
      SmallLogs();
      hide Log;
    } else {
      hide Log, CannotTilt, Special;
      if k + d <= n - k - d - 1 {
        SidesNear(n, k + d, n - k - d - 1);
      } else {
        SidesNear(n, n - k - d - 1, k + d);
      }
    }
  }

  // A tree over the sequence in which position k is beneath node n.
  ghost predicate TiltedTree(s: Links, y: Layout, order: seq<Node>, n: Node, k: nat) {
    Over(s, y, order) && Beneath(y, n, k) && TiltedRank(|order|, s.Rank(s.root))
  }

  // The ranks of two sides that fit under a root.
  ghost predicate FitUnder(n: nat, a: nat, b: nat) {
    NearRanks(a, b) && TiltedRank(n, 1 + Max(a, b))
  }

  lemma TiltLeft(left: seq<Node>, x: Node, right: seq<Node>, n: Node, k: nat, sl: Links, yl: Layout) returns (s: Links, y: Layout)
    requires Distinct(left + [x] + right) && Distinct(right) && TiltedTree(sl, yl, left, n, k)
    requires FitUnder(|left| + 1 + |right|, sl.Rank(sl.root), Log(|right|))
    ensures TiltedTree(s, y, left + [x] + right, n, k)
  {
    hide TiltedRank, Over, Joined, Beneath, Distinct, Log;
    var sr, yr := Balanced(right);
    s, y := JoinAt(left, x, right, sl, yl, sr, yr);
    OverOrder(sl, yl, left);
    JoinedLeft(sl, yl, x, sr, yr, s.Rank(s.root), s, y, n, k);
  }

  lemma TiltRight(left: seq<Node>, x: Node, right: seq<Node>, n: Node, k: nat, sr: Links, yr: Layout) returns (s: Links, y: Layout)
    requires Distinct(left + [x] + right) && Distinct(left) && TiltedTree(sr, yr, right, n, k)
    requires FitUnder(|left| + 1 + |right|, Log(|left|), sr.Rank(sr.root))
    ensures TiltedTree(s, y, left + [x] + right, n, |left| + 1 + k)
  {
    hide TiltedRank, Over, Joined, Beneath, Distinct, Log;
    var sl, yl := Balanced(left);
    s, y := JoinAt(left, x, right, sl, yl, sr, yr);
    OverOrder(sr, yr, right);
    JoinedRight(sl, yl, x, sr, yr, s.Rank(s.root), s, y, n, k);
  }

  lemma TiltTop(left: seq<Node>, x: Node, right: seq<Node>, k: nat) returns (s: Links, y: Layout)
    requires Distinct(left + [x] + right) && Distinct(left) && Distinct(right) && k < |left|
    requires FitUnder(|left| + 1 + |right|, Log(|left|), Log(|right|))
    ensures TiltedTree(s, y, left + [x] + right, x, k)
  {
    hide TiltedRank, Over, Joined, Beneath, Distinct, Log;
    var sl, yl := Balanced(left);
    var sr, yr := Balanced(right);
    s, y := JoinAt(left, x, right, sl, yl, sr, yr);
    OverOrder(s, y, left + [x] + right);
    JoinedTop(sl, yl, x, sr, yr, s.Rank(s.root), s, y, k);
  }

  ghost predicate CutAt(order: seq<Node>, k: nat, d: nat, left: seq<Node>, x: Node, right: seq<Node>) {
    && Distinct(order) && (d == 1 || d == 2) && k + d < |order| && !CannotTilt(|order|, k, d)
    && order == left + [x] + right && |left| == RootFor(|order|, k, d) && Distinct(left) && Distinct(right)
  }

  lemma CutFacts(order: seq<Node>, k: nat, d: nat, left: seq<Node>, x: Node, right: seq<Node>)
    requires CutAt(order, k, d, left, x, right)
    ensures Distinct(order) && (d == 1 || d == 2) && k + d < |order| && !CannotTilt(|order|, k, d)
    ensures order == left + [x] + right && |left| == RootFor(|order|, k, d) && Distinct(left) && Distinct(right)
    ensures |right| == |order| - |left| - 1 && |left| < |order|
  {
  }

  lemma TiltedLeft(order: seq<Node>, k: nat, d: nat, left: seq<Node>, x: Node, right: seq<Node>, sl: Links, yl: Layout) returns (s: Links, y: Layout)
    requires CutAt(order, k, d, left, x, right) && k + d < |left| && TiltedTree(sl, yl, left, left[k + d], k)
    ensures k + d < |order| && TiltedTree(s, y, order, order[k + d], k)
  {
    CutFacts(order, k, d, left, x, right);
    hide *;
    LeftFits(|order|, k, d, sl, yl, left, left[k + d]);
    s, y := TiltLeft(left, x, right, left[k + d], k, sl, yl);
  }

  lemma TiltedRight(order: seq<Node>, k: nat, d: nat, left: seq<Node>, x: Node, right: seq<Node>, sr: Links, yr: Layout) returns (s: Links, y: Layout)
    requires CutAt(order, k, d, left, x, right) && |left| < k && TiltedTree(sr, yr, right, right[k - |left| - 1 + d], k - |left| - 1)
    ensures k + d < |order| && TiltedTree(s, y, order, order[k + d], k)
  {
    var j := k - |left| - 1;
    CutFacts(order, k, d, left, x, right);
    assert order[k + d] == right[j + d];
    hide *;
    RightFits(|order|, k, d, sr, yr, right, right[j + d]);
    s, y := TiltRight(left, x, right, right[j + d], j, sr, yr);
  }

  lemma TiltedTop(order: seq<Node>, k: nat, d: nat, left: seq<Node>, x: Node, right: seq<Node>) returns (s: Links, y: Layout)
    requires CutAt(order, k, d, left, x, right) && |left| == k + d
    ensures k + d < |order| && TiltedTree(s, y, order, order[k + d], k)
  {
    CutFacts(order, k, d, left, x, right);
    hide *;
    TopFits(|order|, k, d);
    s, y := TiltTop(left, x, right, k);
  }

  // But for a few short sequences and their ends, some tree has the next node,
  // or the one after that, above a given one.
  lemma {:induction false} Tilted(order: seq<Node>, k: nat, d: nat) returns (s: Links, y: Layout)
    requires Distinct(order) && (d == 1 || d == 2) && k + d < |order| && !CannotTilt(|order|, k, d)
    ensures TiltedTree(s, y, order, order[k + d], k)
    decreases |order|
  {
    RootInside(|order|, k, d);
    var left, x, right := Cut(order, RootFor(|order|, k, d));
    assert CutAt(order, k, d, left, x, right);
    assert Distinct(left) && Distinct(right) && |left| == RootFor(|order|, k, d) && |right| == |order| - |left| - 1;
    hide *;
    if k + d < |left| {
      s, y := Tilted(left, k, d);
      s, y := TiltedLeft(order, k, d, left, x, right, s, y);
    } else if |left| < k {
      s, y := Tilted(right, k - |left| - 1, d);
      s, y := TiltedRight(order, k, d, left, x, right, s, y);
    } else {
      s, y := TiltedTop(order, k, d, left, x, right);
    }
  }

  lemma LeftFits(n: nat, k: nat, d: nat, s: Links, y: Layout, left: seq<Node>, m: Node)
    requires (d == 1 || d == 2) && k + d < n && !CannotTilt(n, k, d)
    requires RootFor(n, k, d) == |left| < n && k + d < |left| && TiltedTree(s, y, left, m, k)
    ensures FitUnder(n, s.Rank(s.root), Log(n - |left| - 1))
  {
    hide TiltedRank, Over, Beneath;
    RootRanks(n, k, d, s.Rank(s.root), Log(n - |left| - 1));
  }

  lemma RightFits(n: nat, k: nat, d: nat, s: Links, y: Layout, right: seq<Node>, m: Node)
    requires (d == 1 || d == 2) && k + d < n && !CannotTilt(n, k, d) && |right| < n
    requires var i := RootFor(n, k, d); i == n - |right| - 1 && i < k && TiltedTree(s, y, right, m, k - i - 1)
    ensures FitUnder(n, Log(n - |right| - 1), s.Rank(s.root))
  {
    hide TiltedRank, Over, Beneath;
    RootRanks(n, k, d, Log(n - |right| - 1), s.Rank(s.root));
  }

  lemma TopFits(n: nat, k: nat, d: nat)
    requires (d == 1 || d == 2) && k + d < n && !CannotTilt(n, k, d) && RootFor(n, k, d) == k + d
    ensures FitUnder(n, Log(k + d), Log(n - k - d - 1))
  {
    RootRanks(n, k, d, Log(k + d), Log(n - k - d - 1));
  }

  // ---------- which node is found ----------

  // A node within the subtree of another is not above it.
  lemma {:induction false} BeneathOnce(s: Links, y: Layout, n: Node, i: nat, m: Node, j: nat)
    requires IsWavl(s, y) && n in y.span && m in y.span && y.span[n].pos == i && y.span[m].pos == j
    requires Beneath(y, n, j) && Beneath(y, m, i)
    ensures n == m
  {
    if n != m {
      assert LinkedAt(s, y, n) && LinkedAt(s, y, m);
      var c := s.at[n].Child(i < j);
      assert Beneath(y, c, j);
      SpanWithin(s, y, c, m, j);
    }
  }

  // The subtree of a node in a subtree lies within it.
  lemma {:induction false} SpanWithin(s: Links, y: Layout, c: Node, m: Node, j: nat)
    requires IsWavl(s, y) && m in y.span && y.span[m].pos == j && Beneath(y, c, j)
    ensures y.span[c].lo <= y.span[m].lo && y.span[m].hi <= y.span[c].hi
    decreases if c in y.span then y.span[c].hi - y.span[c].lo else 0
  {
    assert LinkedAt(s, y, c) && LinkedAt(s, y, m);
    if c != m {
      SpanWithin(s, y, s.at[c].Child(y.span[c].pos < j), m, j);
    }
  }

  lemma PairRank(s: Links, y: Layout, n: Node)
    requires IsWavl(s, y) && n in y.span && y.span[n].lo + 2 <= y.span[n].hi
    ensures s.Rank(n) >= 2
  {
    DescendStep(s, y, n);
    var c := s.At(n).Child(y.span[n].pos == y.span[n].lo);
    assert RankOk(s, n) && RankOk(s, c);
  }

  // Every tree of three nodes has the middle one at its root.
  lemma MiddleOfThree(s: Links, y: Layout)
    requires IsWavl(s, y) && |y.order| == 3
    ensures s.root == y.order[1]
    ensures forall k: nat :: k < 3 ==> Beneath(y, y.order[1], k)
  {
    RootSpan(s, y);
    DescendStep(s, y, s.root);
    HeightStep(s, y, s.root);
    assert RankOk(s, s.root);
    var p := y.span[s.root].pos;
    if p != 1 {
      PairRank(s, y, s.At(s.root).Child(p == 0));
    }
  }

  // The last node has at most one other beneath it.
  lemma LastHasOne(s: Links, y: Layout, k: nat)
    requires IsWavl(s, y) && y.order != [] && Beneath(y, y.order[|y.order| - 1], k)
    ensures k + 2 >= |y.order|
  {
    var n := y.order[|y.order| - 1];
    DescendStep(s, y, n);
    HeightStep(s, y, n);
    assert RankOk(s, n);
    if k + 2 < |y.order| {
      PairRank(s, y, s.At(n).left);
    }
  }

  lemma RankSize(s: Links, y: Layout, n: Node)
    requires IsWavl(s, y) && n in y.span
    ensures s.Rank(n) > 0 && (s.Rank(n) == 1 ==> y.span[n].hi == y.span[n].lo + 1)
  {
    DescendStep(s, y, n);
    var l, r := s.At(n).left, s.At(n).right;
    assert l != null ==> RankOk(s, l);
    assert r != null ==> RankOk(s, r);
  }

  // Rank 2 is enough for three nodes.
  lemma RankTwoSize(s: Links, y: Layout, n: Node)
    requires IsWavl(s, y) && n in y.span && s.Rank(n) <= 2
    ensures y.span[n].hi <= y.span[n].lo + 3
  {
    DescendStep(s, y, n);
    var l, r := s.At(n).left, s.At(n).right;
    if l != null {
      RankSize(s, y, l);
    }
    if r != null {
      RankSize(s, y, r);
    }
  }

  // No tree of six nodes has node 4 above position 2: with only one node after
  // it, it would be too low for the nodes before.
  lemma SixNodes(s: Links, y: Layout)
    requires IsWavl(s, y) && |y.order| == 6
    ensures !Beneath(y, y.order[4], 2)
  {
    var n := y.order[4];
    if Beneath(y, n, 2) {
      FourOfSix(s, y, n);
      FewBefore(s, y, n);
    }
  }

  // Its subtree goes to the end, does not begin at 0, and has rank 3.
  lemma FourOfSix(s: Links, y: Layout, n: Node)
    requires IsWavl(s, y) && |y.order| == 6 && n == y.order[4] && Beneath(y, n, 2)
    ensures y.span[n].hi == 6 && 1 <= y.span[n].lo <= 2 && s.Rank(n) == 3 && s.At(n).parent != null
  {
    DescendStep(s, y, n);
    HeightStep(s, y, n);
    assert RankOk(s, n) && LinkedAt(s, y, n);
    var l, r := s.At(n).left, s.At(n).right;
    PairRank(s, y, l);
    if r != null {
      DescendStep(s, y, r);
      RankSize(s, y, r);
      LeafRank(s, y, r);
    }
    RankTwoSize(s, y, l);
  }

  lemma LeafRank(s: Links, y: Layout, n: Node)
    requires IsWavl(s, y) && n in y.span && y.span[n].hi == y.span[n].lo + 1
    ensures s.Rank(n) == 1
  {
    DescendStep(s, y, n);
    HeightStep(s, y, n);
    assert RankOk(s, n);
  }

  // With one node before its subtree and its parent, or only the parent, a node
  // is of rank 2 at most.
  lemma FewBefore(s: Links, y: Layout, n: Node)
    requires IsWavl(s, y) && n in y.span && y.span[n].hi == |y.order| && 1 <= y.span[n].lo <= 2
    ensures s.At(n).parent != null ==> s.Rank(n) <= 2
  {
    var p := s.At(n).parent;
    assert LinkedAt(s, y, n);
    if p != null {
      assert LinkedAt(s, y, p) && RankOk(s, p);
      DescendStep(s, y, p);
      HeightStep(s, y, p);
      var l := s.At(p).left;
      if l != null && l != n {
        LeafRank(s, y, l);
      }
    }
  }

  // ---------- the node that a stretch is beneath ----------

  // Of a stretch of positions one is above all the others.
  lemma {:induction false} TopOf(s: Links, y: Layout, n: Node, a: nat, b: nat) returns (k: nat)
    requires IsWavl(s, y) && a <= b && Beneath(y, n, a) && Beneath(y, n, b)
    ensures a <= k <= b < |y.order| && Beneath(y, y.order[k], a) && Beneath(y, y.order[k], b)
    decreases if n in y.span then y.span[n].hi - y.span[n].lo else 0
  {
    DescendStep(s, y, n);
    var p := y.span[n].pos;
    if b < p {
      k := TopOf(s, y, s.At(n).left, a, b);
    } else if p < a {
      k := TopOf(s, y, s.At(n).right, a, b);
    } else {
      k := p;
    }
  }
}
