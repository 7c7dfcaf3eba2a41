// Relative relocations of the kernel image, encoded as RELR words.
module Relocate {
  import opened Common

  function Add(x: int, y: int): nat {
    (x + y) % WORD
  }

  function Sub(x: int, y: int): nat {
    (x - y) % WORD
  }

  lemma SubAdd(x: int, d: int, n: int)
    ensures Add(Sub(x, d), n) == Sub(Add(x, n), d)
  {
  }

  // Bit i of a word.
  predicate Bit(e: nat, i: nat) {
    if i == 0 then e % 2 == 1 else Bit(e / 2, i - 1)
  }

  // ---------- what a table denotes ----------

  // The words marked by a bitmap: bit i + 1 stands for the i-th word from off.
  function Marked(e: nat, off: nat): seq<nat> {
    if e == 0 then []
    else (if e / 2 % 2 == 1 then [off] else []) + Marked(e / 2, Add(off, 8))
  }

  // The words to relocate, in the order of the table. An even entry is an
  // address, an odd one a bitmap of the 63 words after the last.
  function Words(table: seq<nat>, base: nat): seq<nat> {
    if table == [] then []
    else if table[0] % 2 == 0 then [table[0]] + Words(table[1..], Add(table[0], 8))
    else Marked(table[0], base) + Words(table[1..], Add(base, 504))
  }

  // Bit i of a bitmap marks the word 8 * (i - 1) bytes on, and nothing else is
  // marked.
  lemma MarkedMeaning(e: nat, off: nat, a: nat)
    requires off < WORD
    ensures a in Marked(e, off) <==> exists i: nat :: Bit(e, i + 1) && a == Add(off, 8 * i)
  {
    if a in Marked(e, off) {
      var i := MarkedHasBit(e, off, a);
    }
    if i: nat :| Bit(e, i + 1) && a == Add(off, 8 * i) {
      BitIsMarked(e, off, i);
    }
  }

  lemma NextWord(off: nat, i: nat)
    ensures Add(Add(off, 8), 8 * i) == Add(off, 8 * (i + 1))
  {
    AddTwice(off, 8, 8 * i);
    hide *;
    assert 8 + 8 * i == 8 * (i + 1);
  }

  lemma Here(off: nat)
    requires off < WORD
    ensures Add(off, 8 * 0) == off && Add(off, 8) < WORD
  {
  }

  lemma {:induction false} MarkedHasBit(e: nat, off: nat, a: nat) returns (i: nat)
    requires off < WORD && a in Marked(e, off)
    ensures Bit(e, i + 1) && a == Add(off, 8 * i)
  {
    Here(off);
    hide Add;
    Unfold(e, off);
    if e / 2 % 2 == 1 && a == off {
      i := 0;
      assert Bit(e / 2, 0);
    } else {
      i := MarkedHasBit(e / 2, Add(off, 8), a);
      NextWord(off, i);
      i := i + 1;
    }
  }

  lemma {:induction false} BitIsMarked(e: nat, off: nat, i: nat)
    requires off < WORD && Bit(e, i + 1)
    ensures Add(off, 8 * i) in Marked(e, off)
    decreases i
  {
    Here(off);
    hide Add;
    NoBits(i + 1);
    Unfold(e, off);
    assert Bit(e / 2, i);
    if i > 0 {
      BitIsMarked(e / 2, Add(off, 8), i - 1);
      NextWord(off, i - 1);
    }
  }

  lemma {:induction false} NoBits(i: nat)
    ensures !Bit(0, i)
  {
    if i > 0 {
      NoBits(i - 1);
    }
  }

  // From where the bitmap at entry k counts: the word after the last address, and
  // 63 words on for each bitmap in between.
  function From(table: seq<nat>, base: nat, k: nat): nat
    requires k <= |table|
  {
    if k == 0 then base
    else if table[k - 1] % 2 == 0 then (table[k - 1] + 8) % WORD
    else (From(table, base, k - 1) + 63 * 8) % WORD
  }

  // Entry k denotes the word at a: it is its address, or a bitmap that has the
  // bit of the word.
  ghost predicate Denotes(table: seq<nat>, base: nat, k: nat, a: nat) {
    k < |table| &&
    if table[k] % 2 == 0 then a == table[k]
    else exists i: nat :: Bit(table[k], i + 1) && a == (From(table, base, k) + 8 * i) % WORD
  }

  // The words of a table are those that its entries denote.
  lemma {:induction false} WordsMeaning(table: seq<nat>, base: nat, a: nat)
    requires base < WORD
    ensures a in Words(table, base) <==> exists k: nat :: Denotes(table, base, k, a)
    decreases |table|
  {
    if table != [] {
      var base' := From(table, base, 1);
      FirstEntry(table, base);
      WordsMeaning(table[1..], base', a);
      FirstDenotes(table, base, a);
      hide Words, Marked, Denotes, From;
      if k: nat :| Denotes(table, base, k, a) && k > 0 {
        RestDenotes(table, base, k, a);
        assert Denotes(table[1..], base', k - 1, a);
      }
      if k: nat :| Denotes(table[1..], base', k, a) {
        RestDenotes(table, base, k + 1, a);
        assert Denotes(table, base, k + 1, a);
      }
    }
  }

  lemma FirstFrom(table: seq<nat>, base: nat)
    requires table != []
    ensures From(table, base, 1) < WORD && From(table, base, 1) == if table[0] % 2 == 0 then Add(table[0], 8) else Add(base, 504)
  {
  }

  lemma FirstEntry(table: seq<nat>, base: nat)
    requires table != []
    ensures From(table, base, 1) < WORD
    ensures Words(table, base) == (if table[0] % 2 == 0 then [table[0]] else Marked(table[0], base)) + Words(table[1..], From(table, base, 1))
  {
    FirstFrom(table, base);
    hide Add, From, Marked;
  }

  lemma FirstDenotes(table: seq<nat>, base: nat, a: nat)
    requires table != [] && base < WORD
    ensures a in (if table[0] % 2 == 0 then [table[0]] else Marked(table[0], base)) <==> Denotes(table, base, 0, a)
  {
    hide Marked, Bit;
    if table[0] % 2 != 0 {
      MarkedMeaning(table[0], base, a);
      if i: nat :| Bit(table[0], i + 1) && a == Add(base, 8 * i) {
        assert a == (From(table, base, 0) + 8 * i) % WORD;
      }
      if i: nat :| Bit(table[0], i + 1) && a == (From(table, base, 0) + 8 * i) % WORD {
        assert a == Add(base, 8 * i);
      }
    }
  }

  lemma {:induction false} RestFrom(table: seq<nat>, base: nat, k: nat)
    requires 0 < k <= |table|
    ensures From(table, base, k) == From(table[1..], From(table, base, 1), k - 1)
  {
    if k > 1 {
      RestFrom(table, base, k - 1);
    }
  }

  lemma RestDenotes(table: seq<nat>, base: nat, k: nat, a: nat)
    requires table != [] && 0 < k
    ensures Denotes(table, base, k, a) <==> Denotes(table[1..], From(table, base, 1), k - 1, a)
  {
    if k < |table| {
      RestFrom(table, base, k);
    }
  }

  // ---------- the effect on memory ----------

  type Memory = map<nat, nat>

  function Shift(m: Memory, ws: seq<nat>, d: int): Memory
    requires forall k :: 0 <= k < |ws| ==> ws[k] in m
  {
    if ws == [] then m else Shift(m[ws[0] := Add(m[ws[0]], d)], ws[1..], d)
  }

  function Count(ws: seq<nat>, a: nat): nat {
    if ws == [] then 0 else (if ws[0] == a then 1 else 0) + Count(ws[1..], a)
  }

  lemma AddTwice(x: int, c: int, d: int)
    ensures Add(Add(x, c), d) == Add(x, c + d) && Add(x, c) < WORD
  {
  }

  lemma OnceMore(x: int, n: nat, d: int)
    ensures Add(Add(x, d), n * d) == Add(x, (n + 1) * d) && Add(x, d) < WORD
  {
    AddTwice(x, d, n * d);
    hide *;
    assert d + n * d == (n + 1) * d;
  }

  lemma NotOnce(x: nat, d: int)
    ensures x < WORD ==> Add(x, 0 * d) == x
  {
    assert 0 * d == 0;
  }

  // Every word is changed once for each time that it is denoted, and no other
  // word is changed.
  lemma {:induction false} ShiftMeaning(m: Memory, ws: seq<nat>, d: int, a: nat)
    requires forall k :: 0 <= k < |ws| ==> ws[k] in m
    ensures Shift(m, ws, d).Keys == m.Keys
    ensures a in m && m[a] < WORD ==> Shift(m, ws, d)[a] == Add(m[a], Count(ws, a) * d)
    ensures a in m && a !in ws ==> Shift(m, ws, d)[a] == m[a]
  {
    hide Add;
    if ws == [] {
      if a in m {
        NotOnce(m[a], d);
      }
    } else {
      ShiftMeaning(m[ws[0] := Add(m[ws[0]], d)], ws[1..], d, a);
      if a == ws[0] {
        OnceMore(m[a], Count(ws[1..], a), d);
      }
    }
  }

  lemma AddTimes(x: nat, n: nat, c: int, d: int)
    ensures Add(Add(x, n * c), n * d) == Add(x, n * (c + d))
  {
    AddTwice(x, n * c, n * d);
    assert n * c + n * d == n * (c + d);
  }

  // Two relocations compose.
  lemma {:induction false} ShiftTwice(m: Memory, ws: seq<nat>, c: int, d: int)
    requires forall k :: 0 <= k < |ws| ==> ws[k] in m && m[ws[k]] < WORD
    ensures Shift(m, ws, c).Keys == m.Keys
    ensures Shift(Shift(m, ws, c), ws, d) == Shift(m, ws, c + d)
  {
    ShiftMeaning(m, ws, c, 0);
    var m1 := Shift(m, ws, c);
    ShiftMeaning(m1, ws, d, 0);
    ShiftMeaning(m, ws, c + d, 0);
    var m2, m3 := Shift(m1, ws, d), Shift(m, ws, c + d);
    forall a | a in m
      ensures m2[a] == m3[a]
    {
      ShiftMeaning(m, ws, c, a);
      ShiftMeaning(m1, ws, d, a);
      ShiftMeaning(m, ws, c + d, a);
      hide *;
      if a in ws {
        AddTimes(m[a], Count(ws, a), c, d);
      }
    }
    assert m2.Keys == m3.Keys;
  }

  // ---------- relocate_kernel ----------

  // arch_relocate_relative
  function RelocateRelative(x: nat, oldBase: nat, newBase: nat): nat {
    var offset := Sub(x, oldBase);
    Add(newBase, offset)
  }

  method RelocateKernel(m0: Memory, table: seq<nat>, oldBase: nat, newBase: nat) returns (m: Memory)
    requires oldBase < WORD && newBase < WORD
    requires forall a :: a in m0 ==> m0[a] < WORD
    requires forall k :: 0 <= k < |Words(table, 0)| ==> Words(table, 0)[k] in m0
    ensures m == Shift(m0, Words(table, 0), newBase - oldBase)
  {
    m := m0;
    ghost var d := newBase - oldBase;
    if newBase == oldBase {
      ShiftNothing(m0, Words(table, 0));
      return;
    }
    var base := 0;
    var k := 0;
    assert table[0..] == table;
    while k < |table|
      invariant 0 <= k <= |table|
      invariant ToDo(m0, Words(table, 0), m, Words(table[k..], base), d)
    {
      var entry := table[k];
      NextEntry(table, k, base);
      hide *;
      if entry % 2 == 0 {
        OneWord(m0, Words(table, 0), m, entry, Words(table[k + 1..], Add(entry, 8)), oldBase, newBase);
        m := m[entry := RelocateRelative(m[entry], oldBase, newBase)];
        base := Add(entry, 8);
      } else {
        m := RelocateBitmap(m0, Words(table, 0), m, entry, base, oldBase, newBase, Words(table[k + 1..], Add(base, 504)));
        base := Add(base, 504);
      }
      k := k + 1;
    }
  }

  ghost predicate AllIn(ws: seq<nat>, m: Memory) {
    forall k :: 0 <= k < |ws| ==> ws[k] in m
  }

  // Relocating the words of left in m completes the relocation of all in m0.
  ghost predicate ToDo(m0: Memory, all: seq<nat>, m: Memory, left: seq<nat>, d: int) {
    AllIn(all, m0) && AllIn(left, m) && Shift(m, left, d) == Shift(m0, all, d)
  }

  lemma NextEntry(table: seq<nat>, k: nat, base: nat)
    requires k < |table|
    ensures table[k] % 2 == 0 ==> Words(table[k..], base) == [table[k]] + Words(table[k + 1..], Add(table[k], 8))
    ensures table[k] % 2 != 0 ==> Words(table[k..], base) == Marked(table[k], base) + Words(table[k + 1..], Add(base, 504))
  {
    assert table[k..][0] == table[k] && table[k..][1..] == table[k + 1..];
  }

  lemma OneWord(m0: Memory, all: seq<nat>, m: Memory, a: nat, rest: seq<nat>, oldBase: nat, newBase: nat)
    requires ToDo(m0, all, m, [a] + rest, newBase - oldBase)
    ensures a in m && ToDo(m0, all, m[a := RelocateRelative(m[a], oldBase, newBase)], rest, newBase - oldBase)
  {
    var ws := [a] + rest;
    assert ws[0] == a && ws[1..] == rest;
    RelativeIsShift(m[a], oldBase, newBase);
    forall k | 0 <= k < |rest|
      ensures rest[k] in m
    {
      assert ws[k + 1] in m;
    }
  }

  lemma RelativeIsShift(x: nat, oldBase: nat, newBase: nat)
    ensures RelocateRelative(x, oldBase, newBase) == Add(x, newBase - oldBase)
  {
  }

  // The words of one bitmap; what is left to do afterwards is rest.
  method RelocateBitmap(ghost m0: Memory, ghost all: seq<nat>, m1: Memory, entry0: nat, offset0: nat, oldBase: nat, newBase: nat, ghost rest: seq<nat>)
    returns (m: Memory)
    requires ToDo(m0, all, m1, Marked(entry0, offset0) + rest, newBase - oldBase)
    ensures ToDo(m0, all, m, rest, newBase - oldBase)
  {
    m := m1;
    var entry, offset := entry0, offset0;
    while entry != 0
      invariant ToDo(m0, all, m, Marked(entry, offset) + rest, newBase - oldBase)
      decreases entry
    {
      NextMark(entry, offset, rest);
      entry := entry / 2;
      hide *;
      if entry % 2 == 1 {
        OneWord(m0, all, m, offset, Marked(entry, Add(offset, 8)) + rest, oldBase, newBase);
        m := m[offset := RelocateRelative(m[offset], oldBase, newBase)];
      }
      offset := Add(offset, 8);
    }
    assert Marked(entry, offset) + rest == rest;
  }

  lemma NextMark(e: nat, off: nat, rest: seq<nat>)
    requires e != 0
    ensures e / 2 % 2 == 1 ==> Marked(e, off) + rest == [off] + (Marked(e / 2, Add(off, 8)) + rest)
    ensures e / 2 % 2 != 1 ==> Marked(e, off) + rest == Marked(e / 2, Add(off, 8)) + rest
  {
    hide *;
    Unfold(e, off);
    SeqAssociative([off], Marked(e / 2, Add(off, 8)), rest);
  }

  lemma Unfold(e: nat, off: nat)
    ensures e != 0 && e / 2 % 2 == 1 ==> Marked(e, off) == [off] + Marked(e / 2, Add(off, 8))
    ensures e != 0 && e / 2 % 2 != 1 ==> Marked(e, off) == Marked(e / 2, Add(off, 8))
    ensures e == 0 ==> Marked(e, off) == []
  {
    hide Add;
  }

  lemma SeqAssociative(u: seq<nat>, v: seq<nat>, w: seq<nat>)
    ensures u + v + w == u + (v + w)
  {
  }

  lemma {:induction false} ShiftNothing(m: Memory, ws: seq<nat>)
    requires forall a :: a in m ==> m[a] < WORD
    requires forall k :: 0 <= k < |ws| ==> ws[k] in m
    ensures Shift(m, ws, 0) == m
  {
    if ws != [] {
      assert m[ws[0] := Add(m[ws[0]], 0)] == m;
      ShiftNothing(m, ws[1..]);
    }
  }

  // Relocating from a to b and then from b to c is relocating from a to c.
  lemma RelocateCompose(m: Memory, ws: seq<nat>, a: nat, b: nat, c: nat)
    requires forall k :: 0 <= k < |ws| ==> ws[k] in m && m[ws[k]] < WORD
    ensures Shift(m, ws, b - a).Keys == m.Keys
    ensures Shift(Shift(m, ws, b - a), ws, c - b) == Shift(m, ws, c - a)
  {
    ShiftTwice(m, ws, b - a, c - b);
  }

  // ---------- update_relocation_entries ----------

  function Moved(ws: seq<nat>, delta: nat): (r: seq<nat>)
    ensures |r| == |ws|
  {
    seq(|ws|, k requires 0 <= k < |ws| => Sub(ws[k], delta))
  }

  function Updated(table: seq<nat>, delta: nat): (r: seq<nat>) {
    seq(|table|, k requires 0 <= k < |table| => if table[k] % 2 == 0 then Sub(table[k], delta) else table[k])
  }

  method UpdateRelocationEntries(table: array<nat>, delta: nat)
    requires delta % 2 == 0
    modifies table
    ensures table[..] == Updated(old(table[..]), delta)
    ensures forall k :: 0 <= k < table.Length ==>
      table[k] == if old(table[k]) % 2 == 0 then (old(table[k]) - delta) % WORD else old(table[k])
  {
    var k := 0;
    while k < table.Length
      invariant 0 <= k <= table.Length
      invariant forall j :: 0 <= j < k ==> table[j] == Updated(old(table[..]), delta)[j]
      invariant forall j :: k <= j < table.Length ==> table[j] == old(table[..])[j]
    {
      var entry := table[k];
      if entry % 2 == 0 {
        table[k] := Sub(entry, delta);
      }
      k := k + 1;
    }
    assert forall j :: 0 <= j < table.Length ==> old(table[..])[j] == old(table[j]);
  }

  lemma MovedAppend(v: seq<nat>, w: seq<nat>, delta: nat)
    ensures Moved(v + w, delta) == Moved(v, delta) + Moved(w, delta)
  {
  }

  lemma {:induction false} MarkedMoved(e: nat, off: nat, delta: nat)
    ensures Marked(e, Sub(off, delta)) == Moved(Marked(e, off), delta)
  {
    if e != 0 {
      MarkedMoved(e / 2, Add(off, 8), delta);
      SubAdd(off, delta, 8);
    }
  }

  lemma StillEven(e: nat, delta: nat)
    requires delta % 2 == 0
    ensures Sub(e, delta) % 2 == e % 2
  {
  }

  // The updated table denotes the same words, each moved down by delta, when the
  // address from where its first bitmap counts is moved as well.
  lemma {:induction false} UpdatedMoves(table: seq<nat>, base: nat, delta: nat)
    requires delta % 2 == 0
    ensures Words(Updated(table, delta), Sub(base, delta)) == Moved(Words(table, base), delta)
  {
    if table != [] {
      var e, rest := table[0], table[1..];
      assert Updated(table, delta)[1..] == Updated(rest, delta);
      StillEven(e, delta);
      hide Add, Sub;
      if e % 2 == 0 {
        UpdatedMoves(rest, Add(e, 8), delta);
        SubAdd(e, delta, 8);
        MovedAppend([e], Words(rest, Add(e, 8)), delta);
      } else {
        UpdatedMoves(rest, Add(base, 504), delta);
        MarkedMoved(e, base, delta);
        SubAdd(base, delta, 504);
        MovedAppend(Marked(e, base), Words(rest, Add(base, 504)), delta);
      }
    }
  }

  // Nothing is marked before the first address.
  predicate LeadEmpty(table: seq<nat>) {
    table == [] || table[0] % 2 == 0 || (table[0] == 1 && LeadEmpty(table[1..]))
  }

  lemma {:induction false} LeadUpdated(table: seq<nat>, delta: nat)
    requires delta % 2 == 0
    ensures LeadEmpty(Updated(table, delta)) <==> LeadEmpty(table)
  {
    if table != [] {
      StillEven(table[0], delta);
      assert Updated(table, delta)[1..] == Updated(table[1..], delta);
      LeadUpdated(table[1..], delta);
    }
  }

  lemma AddApart(b: nat, c: nat, n: nat)
    requires b < WORD && c < WORD && b != c
    ensures Add(b, n) != Add(c, n) && Add(b, n) < WORD && Add(c, n) < WORD
  {
  }

  lemma {:induction false} FirstMarks(e: nat, b: nat, c: nat)
    requires e > 1 && b < WORD && c < WORD && b != c
    ensures Marked(e, b) != [] && Marked(e, c) != [] && Marked(e, b)[0] != Marked(e, c)[0]
  {
    Unfold(e, b);
    Unfold(e, c);
    if e / 2 % 2 == 0 {
      AddApart(b, c, 8);
      FirstMarks(e / 2, Add(b, 8), Add(c, 8));
    }
  }

  // What a table denotes depends on where it begins if and only if something is
  // marked before the first address.
  lemma {:induction false} BeginMatters(table: seq<nat>, b: nat, c: nat)
    requires b < WORD && c < WORD && b != c
    ensures Words(table, b) == Words(table, c) <==> LeadEmpty(table)
  {
    if table != [] && table[0] % 2 == 1 {
      var e, rest := table[0], table[1..];
      if e == 1 {
        Unfold(1, b);
        Unfold(1, c);
        AddApart(b, c, 504);
        hide Add;
        assert Marked(1, b) == [] && Marked(1, c) == [];
        assert Words(table, b) == Words(rest, Add(b, 504));
        assert Words(table, c) == Words(rest, Add(c, 504));
        BeginMatters(rest, Add(b, 504), Add(c, 504));
      } else {
        FirstMarks(e, b, c);
        hide Add, Marked;
        assert Words(table, b)[0] == Marked(e, b)[0] && Words(table, c)[0] == Marked(e, c)[0];
      }
    }
  }

  lemma NothingMoves(delta: nat)
    ensures Sub(0, delta) < WORD && (Sub(0, delta) == 0 <==> delta % WORD == 0)
  {
  }

  // The updated table denotes the same words, each moved down by delta, if and
  // only if nothing is marked before the first address, or nothing moves.
  lemma UpdatedTable(table: seq<nat>, delta: nat)
    requires delta % 2 == 0
    ensures Words(Updated(table, delta), 0) == Moved(Words(table, 0), delta) <==> delta % WORD == 0 || LeadEmpty(table)
  {
    UpdatedMoves(table, 0, delta);
    LeadUpdated(table, delta);
    NothingMoves(delta);
    hide *;
    if Sub(0, delta) != 0 {
      BeginMatters(Updated(table, delta), 0, Sub(0, delta));
    }
  }

  // A table that begins with a bitmap which marks a word: an update leaves that
  // word where it was.
  lemma BitmapFirst()
    ensures !LeadEmpty([3]) && Words(Updated([3], 8), 0) == [0] && Moved(Words([3], 0), 8) == [WORD - 8]
  {
    assert Marked(3, 0) == [0] + Marked(1, 8) && Marked(1, 8) == [] + Marked(0, 16);
    assert Words([], 504) == [];
  }
}
