/** The language of a regex tree, and why writing out bounded repeats is harmless. */
module RegexLanguage {
  import opened RegexSafety

  /** Class index of a character. */
  function ClassIndex(c: char): nat {
    if c as int < 128 then c as int else 128
  }

  ghost predicate InNode(node: Node, s: string)
    decreases node, 0, 0
  {
    match node
    case Chars(chars, _) => |s| == 1 && chars[ClassIndex(s[0])]
    case Zero => s == ""
    case Group(alts) => InAlts(alts, s)
  }

  ghost predicate InAlts(alts: seq<Branch>, s: string)
    decreases alts, 0, 0
  {
    alts != [] && (InItems(alts[0].items, s) || InAlts(alts[1..], s))
  }

  ghost predicate InItems(items: seq<Item>, s: string)
    decreases items, 0, 0
  {
    if items == [] then s == ""
    else exists i | 0 <= i <= |s| :: InItem(items[0], s[..i]) && InItems(items[1..], s[i..])
  }

  ghost predicate InItem(it: Item, s: string)
    decreases it, 0, 0
  {
    match it
    case Item(node, min, max) =>
      exists k: nat :: min <= k && (max.Infinite? || k <= max.n) && Times(node, k, s)
  }

  /** `s` is `k` texts of the node one after the other. */
  ghost predicate Times(node: Node, k: nat, s: string)
    decreases node, 1, k
  {
    if k == 0 then s == ""
    else exists i | 0 <= i <= |s| :: InNode(node, s[..i]) && Times(node, k - 1, s[i..])
  }

  /** The first item matches up to `i` and the others from there. */
  ghost predicate HeadEndsAt(items: seq<Item>, s: string, i: nat)
    requires items != []
  {
    i <= |s| && InItem(items[0], s[..i]) && InItems(items[1..], s[i..])
  }

  lemma ItemsByHead(items: seq<Item>, s: string)
    requires items != []
    ensures InItems(items, s) <==> exists i: nat :: HeadEndsAt(items, s, i)
  {
    if InItems(items, s) {
      var i :| 0 <= i <= |s| && InItem(items[0], s[..i]) && InItems(items[1..], s[i..]);
      assert HeadEndsAt(items, s, i);
    }
  }

  ghost predicate FirstEndsAt(node: Node, k: nat, s: string, i: nat)
    requires k > 0
  {
    i <= |s| && InNode(node, s[..i]) && Times(node, k - 1, s[i..])
  }

  lemma TimesByFirst(node: Node, k: nat, s: string)
    requires k > 0
    ensures Times(node, k, s) <==> exists i: nat :: FirstEndsAt(node, k, s, i)
  {
    if Times(node, k, s) {
      var i :| 0 <= i <= |s| && InNode(node, s[..i]) && Times(node, k - 1, s[i..]);
      assert FirstEndsAt(node, k, s, i);
    }
  }

  // ----- Concatenation and copies -----

  ghost predicate SplitAt(a: seq<Item>, b: seq<Item>, s: string, i: nat) {
    i <= |s| && InItems(a, s[..i]) && InItems(b, s[i..])
  }

  lemma {:induction false} Concatenation(a: seq<Item>, b: seq<Item>, s: string)
    ensures InItems(a + b, s) <==> exists i: nat :: SplitAt(a, b, s, i)
    decreases |a|
  {
    if a == [] {
      assert a + b == b;
      assert s[0..] == s;
      if InItems(b, s) { assert SplitAt(a, b, s, 0); }
    } else {
      assert (a + b)[1..] == a[1..] + b;
      ItemsByHead(a + b, s);
      if InItems(a + b, s) {
        var i: nat :| HeadEndsAt(a + b, s, i);
        Concatenation(a[1..], b, s[i..]);
        var j: nat :| SplitAt(a[1..], b, s[i..], j);
        assert s[..i + j][..i] == s[..i] && s[..i + j][i..] == s[i..][..j] && s[i..][j..] == s[i + j..];
        assert HeadEndsAt(a, s[..i + j], i);
        assert SplitAt(a, b, s, i + j);
      }
      if exists j: nat :: SplitAt(a, b, s, j) {
        var j: nat :| SplitAt(a, b, s, j);
        ItemsByHead(a, s[..j]);
        var i: nat :| HeadEndsAt(a, s[..j], i);
        assert s[..j][..i] == s[..i] && s[..j][i..] == s[i..][..j - i] && s[i..][j - i..] == s[j..];
        assert SplitAt(a[1..], b, s[i..], j - i);
        Concatenation(a[1..], b, s[i..]);
        assert HeadEndsAt(a + b, s, i);
      }
    }
  }

  lemma TimesOnce(node: Node, s: string)
    ensures Times(node, 1, s) <==> InNode(node, s)
  {
    TimesByFirst(node, 1, s);
    assert s[..|s|] == s && s[|s|..] == "";
    if InNode(node, s) {
      assert FirstEndsAt(node, 1, s, |s|);
    }
    if Times(node, 1, s) {
      var i: nat :| FirstEndsAt(node, 1, s, i);
      assert s[..i] == s;
    }
  }

  lemma OnceOrNot(node: Node, min: nat, s: string)
    requires min <= 1
    ensures InItem(Item(node, min, Finite(1)), s) <==> (min == 0 && s == "") || InNode(node, s)
  {
    TimesOnce(node, s);
    assert Times(node, 0, s) <==> s == "";
  }

  ghost predicate SomeTimes(node: Node, min: nat, max: Max, s: string) {
    exists k: nat :: min <= k && (max.Infinite? || k <= max.n) && Times(node, k, s)
  }

  function Less(n: nat): nat {
    if n > 0 then n - 1 else 0
  }

  lemma CopiesTail(node: Node, min: nat, m: nat)
    requires m > 0
    ensures Copies(node, min, m)[0] == Item(node, if 0 < min then 1 else 0, Finite(1))
    ensures Copies(node, min, m)[1..] == Copies(node, Less(min), m - 1)
  {
  }

  lemma {:induction false} CopiesRepeat(node: Node, min: nat, m: nat, s: string) returns (k: nat)
    requires min <= m && InItems(Copies(node, min, m), s)
    ensures min <= k <= m && Times(node, k, s)
    decreases m
  {
    if m == 0 {
      k := 0;
    } else {
      CopiesTail(node, min, m);
      ItemsByHead(Copies(node, min, m), s);
      var i: nat :| HeadEndsAt(Copies(node, min, m), s, i);
      OnceOrNot(node, if 0 < min then 1 else 0, s[..i]);
      var rest := CopiesRepeat(node, Less(min), m - 1, s[i..]);
      if InNode(node, s[..i]) {
        k := rest + 1;
        TimesByFirst(node, k, s);
        assert FirstEndsAt(node, k, s, i);
      } else {
        k := rest;
        assert s[i..] == s;
      }
    }
  }

  lemma {:induction false} RepeatCopies(node: Node, min: nat, m: nat, s: string, k: nat)
    requires min <= k <= m && Times(node, k, s)
    ensures InItems(Copies(node, min, m), s)
    decreases m
  {
    if m > 0 {
      CopiesTail(node, min, m);
      ItemsByHead(Copies(node, min, m), s);
      var i: nat := 0;
      if k > 0 {
        TimesByFirst(node, k, s);
        i :| FirstEndsAt(node, k, s, i);
      }
      OnceOrNot(node, if 0 < min then 1 else 0, s[..i]);
      RepeatCopies(node, Less(min), m - 1, s[i..], Less(k));
      assert HeadEndsAt(Copies(node, min, m), s, i);
    }
  }

  // ----- Expansion keeps the language -----

  /** The host's own syntax check rejects `{n,m}` with `n > m`. */
  ghost predicate Ordered(branches: set<Branch>) {
    forall b, it :: b in branches && it in b.items && it.max.Finite? ==> it.min <= it.max.n
  }

  lemma {:induction false} SameTimes(n1: Node, n2: Node, k: nat, s: string)
    requires forall t :: InNode(n1, t) <==> InNode(n2, t)
    ensures Times(n1, k, s) <==> Times(n2, k, s)
    decreases k
  {
    if k > 0 {
      TimesByFirst(n1, k, s);
      TimesByFirst(n2, k, s);
      forall i: nat
        ensures FirstEndsAt(n1, k, s, i) <==> FirstEndsAt(n2, k, s, i)
      {
        if i <= |s| { SameTimes(n1, n2, k - 1, s[i..]); }
      }
    }
  }

  /** Writing out every bounded repeat, at every depth, changes no match. */
  lemma {:induction false} ExpansionKeepsLanguage(alts: seq<Branch>, s: string)
    requires Ordered(AllBranches(alts))
    ensures InAlts(ExpandAlts(alts), s) <==> InAlts(alts, s)
    decreases alts, 0
  {
    if alts != [] {
      assert alts[0] in AllBranches(alts);
      ItemsExpansionKeepsLanguage(alts[0].items, s);
      ExpansionKeepsLanguage(alts[1..], s);
      assert ExpandAlts(alts)[1..] == ExpandAlts(alts[1..]);
    }
  }

  lemma {:induction false} ItemsExpansionKeepsLanguage(items: seq<Item>, s: string)
    requires (forall it :: it in items && it.max.Finite? ==> it.min <= it.max.n) && Ordered(BranchesBelow(items))
    ensures InItems(ExpandItems(items), s) <==> InItems(items, s)
    decreases items, 0
  {
    if items != [] {
      var head, rest := ExpandItem(items[0]), ExpandItems(items[1..]);
      Concatenation(head, rest, s);
      ItemsByHead(items, s);
      forall i: nat
        ensures SplitAt(head, rest, s, i) <==> HeadEndsAt(items, s, i)
      {
        if i <= |s| {
          ItemExpansionKeepsLanguage(items[0], s[..i]);
          ItemsExpansionKeepsLanguage(items[1..], s[i..]);
        }
      }
    }
  }

  lemma {:induction false} ItemExpansionKeepsLanguage(it: Item, s: string)
    requires (it.max.Finite? ==> it.min <= it.max.n) && Ordered(ItemBranches(it))
    ensures InItems(ExpandItem(it), s) <==> InItem(it, s)
    decreases it, 0
  {
    var node := match it.node { case Group(alts) => Group(ExpandAlts(alts)) case n => n };
    forall t
      ensures InNode(node, t) <==> InNode(it.node, t)
    {
      match it.node
      case Group(alts) => ExpansionKeepsLanguage(alts, t);
      case _ =>
    }
    forall k: nat ensures Times(node, k, s) <==> Times(it.node, k, s) {
      SameTimes(node, it.node, k, s);
    }
    assert SomeTimes(node, it.min, it.max, s) <==> InItem(it, s);
    match it.max
    case Infinite =>
      var one := Item(node, it.min, Infinite);
      assert [one][1..] == [];
      ItemsByHead([one], s);
      assert s[..|s|] == s && s[|s|..] == "";
      if InItem(it, s) { assert HeadEndsAt([one], s, |s|); }
      if InItems([one], s) {
        var i: nat :| HeadEndsAt([one], s, i);
        assert s[..i] == s;
        assert InItem(one, s);
        var k: nat :| it.min <= k && Times(node, k, s);
        assert Times(it.node, k, s);
      }
    case Finite(m) =>
      if InItem(it, s) {
        var k: nat :| it.min <= k <= m && Times(node, k, s);
        RepeatCopies(node, it.min, m, s, k);
      }
      if InItems(ExpandItem(it), s) {
        var k := CopiesRepeat(node, it.min, m, s);
      }
  }
}
