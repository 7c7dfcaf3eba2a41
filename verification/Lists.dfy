// Doubly linked lists without repetition, as sequences.
module Lists {

  // list_delete: the list without the first x in it.
  function Without(s: seq<nat>, x: nat): seq<nat> {
    if s == [] then []
    else if s[0] == x then s[1..]
    else [s[0]] + Without(s[1..], x)
  }

  ghost predicate Distinct(s: seq<nat>) {
    forall i, j :: 0 <= i < j < |s| ==> s[i] != s[j]
  }

  lemma {:induction false} WithoutMeaning(s: seq<nat>, x: nat)
    requires Distinct(s)
    ensures Distinct(Without(s, x))
    ensures forall y :: y in Without(s, x) <==> y in s && y != x
    ensures |Without(s, x)| == |s| - (if x in s then 1 else 0)
  {
    if s != [] && s[0] != x {
      WithoutMeaning(s[1..], x);
      assert s[0] !in s[1..];
      forall j | 0 <= j < |Without(s[1..], x)|
        ensures Without(s[1..], x)[j] != s[0]
      {
        assert Without(s[1..], x)[j] in Without(s[1..], x);
      }
    }
  }

  // The list q' is q with x taken out, and the rest in the same order.
  ghost predicate TakenOut(q: seq<nat>, q': seq<nat>, x: nat) {
    exists i :: 0 <= i < |q| && q[i] == x && q' == q[..i] + q[i + 1..]
  }

  lemma TakenOutBehind(h: nat, q: seq<nat>, q': seq<nat>, x: nat)
    requires TakenOut(q, q', x)
    ensures TakenOut([h] + q, [h] + q', x)
  {
    var i :| 0 <= i < |q| && q[i] == x && q' == q[..i] + q[i + 1..];
    var r := [h] + q;
    assert r[..i + 1] == [h] + q[..i] && r[i + 1 + 1..] == q[i + 1..];
    assert r[i + 1] == x && [h] + q' == r[..i + 1] + r[i + 1 + 1..];
  }

  // Without takes x out of the list if it is there.
  lemma {:induction false} WithoutSplits(s: seq<nat>, x: nat)
    ensures x in s ==> TakenOut(s, Without(s, x), x)
    ensures x !in s ==> Without(s, x) == s
  {
    hide TakenOut;
    if s != [] {
      assert s == [s[0]] + s[1..];
      if s[0] == x {
        TakenFirst(s);
      } else {
        WithoutSplits(s[1..], x);
        if x in s {
          TakenOutBehind(s[0], s[1..], Without(s[1..], x), x);
        }
      }
    }
  }

  lemma TakenFirst(s: seq<nat>)
    requires s != []
    ensures TakenOut(s, s[1..], s[0])
  {
    assert s[1..] == s[..0] + s[0 + 1..];
  }
}
