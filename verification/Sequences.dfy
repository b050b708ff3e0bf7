/** Sequence vocabulary shared by the frame, broadcast and session models. */
module Sequences {

  datatype Option<+T> = None | Some(value: T)

  function Min(a: int, b: int): int {
    if a <= b then a else b
  }

  function Last<T>(s: seq<T>): T
    requires s != []
  {
    s[|s| - 1]
  }

  function Front<T>(s: seq<T>): seq<T>
    requires s != []
  {
    s[..|s| - 1]
  }

  function Flatten<T>(ss: seq<seq<T>>): seq<T> {
    if ss == [] then [] else ss[0] + Flatten(ss[1..])
  }

  lemma Associative<T>(a: seq<T>, b: seq<T>, c: seq<T>)
    ensures a + (b + c) == (a + b) + c
  {
  }

  lemma SlicesJoin<T>(s: seq<T>, i: nat, j: nat, k: nat)
    requires i <= j <= k <= |s|
    ensures s[i..j] + s[j..k] == s[i..k]
  {
  }

  lemma FrontAndLast<T>(s: seq<T>)
    requires s != []
    ensures s == Front(s) + [Last(s)]
  {
  }

  lemma HeadAndTail<T>(s: seq<T>)
    requires s != []
    ensures s == [s[0]] + s[1..]
  {
  }

  lemma {:induction false} FlattenAppend<T>(a: seq<seq<T>>, b: seq<seq<T>>)
    ensures Flatten(a + b) == Flatten(a) + Flatten(b)
  {
    if a == [] {
      assert a + b == b;
    } else {
      assert (a + b)[1..] == a[1..] + b;
      FlattenAppend(a[1..], b);
    }
  }

  lemma FlattenSnoc<T>(a: seq<seq<T>>, x: seq<T>)
    ensures Flatten(a + [x]) == Flatten(a) + x
  {
    FlattenAppend(a, [x]);
    assert Flatten([x]) == x + Flatten<T>([]);
  }

  /** a can be obtained from b by deleting elements; the order of what is left is kept. */
  ghost predicate Subsequence<T>(a: seq<T>, b: seq<T>) {
    || a == []
    || (&& b != []
        && (|| Subsequence(a, Front(b))
            || (Last(a) == Last(b) && Subsequence(Front(a), Front(b)))))
  }

  /** Positions in b that spell out a, from left to right. */
  ghost predicate Embeds<T>(a: seq<T>, b: seq<T>, at: seq<nat>) {
    && |at| == |a|
    && (forall k :: 0 <= k < |at| ==> at[k] < |b| && b[at[k]] == a[k])
    && (forall j, k :: 0 <= j < k < |at| ==> at[j] < at[k])
  }

  /** What the recursive definition means: strictly increasing positions of b read a. */
  lemma {:induction false} SubsequencePositions<T>(a: seq<T>, b: seq<T>) returns (at: seq<nat>)
    requires Subsequence(a, b)
    ensures Embeds(a, b, at)
  {
    if a == [] {
      at := [];
    } else if Subsequence(a, Front(b)) {
      at := SubsequencePositions(a, Front(b));
    } else {
      var before := SubsequencePositions(Front(a), Front(b));
      at := before + [|b| - 1];
    }
  }

  lemma {:induction false} SubsequenceKeep<T>(a: seq<T>, b: seq<T>, x: T)
    requires Subsequence(a, b)
    ensures Subsequence(a + [x], b + [x])
  {
    assert Front(a + [x]) == a && Front(b + [x]) == b;
  }

  lemma {:induction false} SubsequenceSkip<T>(a: seq<T>, b: seq<T>, x: T)
    requires Subsequence(a, b)
    ensures Subsequence(a, b + [x])
  {
    assert Front(b + [x]) == b;
  }

  /** Deleting one more element of a leaves a subsequence. */
  lemma {:induction false} SubsequenceDelete<T>(a: seq<T>, b: seq<T>, i: nat)
    requires Subsequence(a, b) && i < |a|
    ensures Subsequence(a[..i] + a[i + 1..], b)
  {
    var shorter := a[..i] + a[i + 1..];
    if Subsequence(a, Front(b)) {
      SubsequenceDelete(a, Front(b), i);
    } else if i == |a| - 1 {
      assert shorter == Front(a);
    } else {
      SubsequenceDelete(Front(a), Front(b), i);
      assert Front(shorter) == Front(a)[..i] + Front(a)[i + 1..];
    }
  }

  lemma {:induction false} SubsequencePrefix<T>(p: seq<T>, a: seq<T>, b: seq<T>)
    requires p <= a && Subsequence(a, b)
    ensures Subsequence(p, b)
    decreases |a|
  {
    if p == a {
    } else {
      SubsequenceDelete(a, b, |a| - 1);
      assert a[..|a| - 1] + a[|a|..] == Front(a);
      SubsequencePrefix(p, Front(a), b);
    }
  }

  lemma {:induction false} SubsequenceExtend<T>(a: seq<T>, b: seq<T>, c: seq<T>)
    requires Subsequence(a, b)
    ensures Subsequence(a, b + c)
    decreases |c|
  {
    if c == [] {
      assert b + c == b;
    } else {
      SubsequenceExtend(a, b, Front(c));
      SubsequenceSkip(a, b + Front(c), Last(c));
      assert b + Front(c) + [Last(c)] == b + c;
    }
  }

  lemma {:induction false} SubsequenceMember<T>(a: seq<T>, b: seq<T>, x: T)
    requires Subsequence(a, b) && x in a
    ensures x in b
  {
    var at := SubsequencePositions(a, b);
    var k :| 0 <= k < |a| && a[k] == x;
    assert b[at[k]] == x;
  }

  ghost function PositionsOf<T>(s: seq<T>, members: set<T>): set<nat> {
    set i: nat | 0 <= i < |s| && s[i] in members
  }

  lemma PositionsWithout<T>(s: seq<T>, members: set<T>, i: nat)
    requires forall i, j :: 0 <= i < j < |s| ==> s[i] != s[j]
    requires i < |s| && s[i] in members
    ensures PositionsOf(s, members - {s[i]}) == PositionsOf(s, members) - {i}
    ensures |PositionsOf(s, members)| == |PositionsOf(s, members - {s[i]})| + 1
  {
    assert forall j :: 0 <= j < |s| ==> (s[j] == s[i] <==> j == i);
    assert i in PositionsOf(s, members);
  }

  /** In a sequence without repetitions, a set of members has as many positions as members. */
  lemma {:induction false} PositionsCount<T>(s: seq<T>, members: set<T>)
    requires forall i, j :: 0 <= i < j < |s| ==> s[i] != s[j]
    requires forall x :: x in members ==> x in s
    ensures |PositionsOf(s, members)| == |members|
    decreases |members|
  {
    if members != {} {
      var x :| x in members;
      var i: nat :| i < |s| && s[i] == x;
      PositionsCount(s, members - {x});
      PositionsWithout(s, members, i);
    } else {
      assert PositionsOf(s, members) == {};
    }
  }

  lemma PositionsEmpty<T>(s: seq<T>, members: set<T>)
    requires forall x :: x in members ==> x in s
    ensures PositionsOf(s, members) == {} <==> members == {}
  {
    if x :| x in members {
      var i :| 0 <= i < |s| && s[i] == x;
      assert i in PositionsOf(s, members);
    }
  }

  ghost function PositionIn<T>(s: seq<T>, x: T): (i: nat)
    requires x in s
    ensures i < |s| && s[i] == x
  {
    var i :| 0 <= i < |s| && s[i] == x;
    i
  }

  /** Appending a new element adds one position to the sets that hold it and none to the others. */
  lemma PositionsSnoc<T>(s: seq<T>, members: set<T>, x: T)
    requires x !in s && forall y :: y in members ==> y in s
    ensures PositionsOf(s + [x], members) == PositionsOf(s, members)
    ensures PositionsOf(s + [x], members + {x}) == PositionsOf(s, members) + {|s|}
  {
    assert x !in members;
    forall i: nat | i <= |s| ensures i in PositionsOf(s + [x], members) <==> i in PositionsOf(s, members) {
      assert i < |s| ==> (s + [x])[i] == s[i];
    }
    forall i: nat | i < |s| ensures s[i] in members + {x} <==> s[i] in members {
    }
    assert forall i: nat :: i < |s| ==> (s + [x])[i] == s[i];
  }
}
