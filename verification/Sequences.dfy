/** Lists and texts: taking concatenations apart, finding a character, flattening. */
module Sequences {
  /** Moving one element across a concatenation, for loops that collect a list. */
  lemma Moved<T>(done: seq<T>, x: T, rest: seq<T>)
    ensures done + ([x] + rest) == (done + [x]) + rest
  {
  }

  lemma Regroup<T>(a: seq<T>, b: seq<T>, c: seq<T>)
    ensures (a + b) + c == a + (b + c)
  {
  }

  lemma Behind<T>(front: seq<T>, rest: seq<T>)
    ensures (front + rest)[..|front|] == front && (front + rest)[|front|..] == rest
  {
  }

  /** Index of the first `c`, or -1. */
  function Position(s: string, c: char): (k: int)
    ensures -1 <= k < |s|
    ensures k >= 0 ==> s[k] == c && c !in s[..k]
    ensures k < 0 ==> c !in s
  {
    if s == "" then -1
    else if s[0] == c then 0
    else
      var k := Position(s[1..], c);
      assert s == [s[0]] + s[1..];
      if k < 0 then -1 else assert s[..k + 1] == [s[0]] + s[1..][..k]; k + 1
  }

  lemma {:induction false} PositionOf(before: string, c: char, after: string)
    requires c !in before
    ensures Position(before + ([c] + after), c) == |before|
  {
    if before == "" {
      assert before + ([c] + after) == [c] + after;
    } else {
      assert (before + ([c] + after))[1..] == before[1..] + ([c] + after);
      PositionOf(before[1..], c, after);
    }
  }

  function Flatten<T>(lists: seq<seq<T>>): seq<T> {
    if lists == [] then [] else lists[0] + Flatten(lists[1..])
  }

  lemma {:induction false} FlattenConcat<T>(a: seq<seq<T>>, b: seq<seq<T>>)
    ensures Flatten(a + b) == Flatten(a) + Flatten(b)
  {
    if a == [] {
      assert a + b == b;
    } else {
      assert (a + b)[1..] == a[1..] + b;
      FlattenConcat(a[1..], b);
    }
  }

  lemma FlattenSnoc<T>(lists: seq<seq<T>>, n: nat)
    requires n < |lists|
    ensures Flatten(lists[..n + 1]) == Flatten(lists[..n]) + lists[n]
  {
    assert lists[..n + 1] == lists[..n] + [lists[n]];
    FlattenConcat(lists[..n], [lists[n]]);
    assert [lists[n]][1..] == [] && lists[n] + [] == lists[n];
  }
}
