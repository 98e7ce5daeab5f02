/** The structural regex analyser (fluxDown/rules/regex-safety.ts). */
module RegexSafety {
  import opened Options

  const SET_SIZE := 129
  const MAX_UNBOUNDED_QUANTIFIERS := 4

  /** Indices 0..127 are ASCII, 128 stands for every other character. */
  type CharSet = s: seq<bool> | |s| == SET_SIZE witness seq(SET_SIZE, _ => false)

  datatype Literal = NoLiteral | Exactly(c: char)

  datatype Max = Finite(n: nat) | Infinite

  datatype Node =
    | Chars(chars: CharSet, lit: Literal)
    | Zero
    | Group(alts: seq<Branch>)

  datatype Item = Item(node: Node, min: nat, max: Max)

  datatype Branch = Branch(items: seq<Item>)

  datatype Problem = NestedQuantifier | AmbiguousAlternation | OverlappingQuantifiers | TooManyQuantifiers

  datatype Verdict = Fail(problem: Problem) | Pass(n: nat)

  predicate Repeats(max: Max) {
    max.Infinite? || max.n > 1
  }

  function FullSet(): CharSet {
    seq(SET_SIZE, _ => true)
  }

  predicate Overlap(a: CharSet, b: CharSet) {
    exists i | 0 <= i < SET_SIZE :: a[i] && b[i]
  }

  method Overlaps(a: CharSet, b: CharSet) returns (r: bool)
    ensures r <==> Overlap(a, b)
  {
    for i := 0 to SET_SIZE
      invariant forall k :: 0 <= k < i ==> !(a[k] && b[k])
    {
      if a[i] && b[i] { return true; }
    }
    return false;
  }

  // ----- Repeats at any depth -----

  predicate ContainsRepeat(alts: seq<Branch>)
    decreases alts
  {
    exists b | b in alts :: ItemsRepeat(b.items)
  }

  predicate ItemsRepeat(items: seq<Item>)
    decreases items
  {
    exists it | it in items :: ItemRepeats(it)
  }

  predicate ItemRepeats(it: Item)
    decreases it
  {
    Repeats(it.max) ||
    match it.node
    case Group(alts) => ContainsRepeat(alts)
    case _ => false
  }

  /** Every branch of the tree, at any depth. */
  ghost function AllBranches(alts: seq<Branch>): set<Branch>
    decreases alts
  {
    if alts == [] then {}
    else {alts[0]} + BranchesBelow(alts[0].items) + AllBranches(alts[1..])
  }

  ghost function BranchesBelow(items: seq<Item>): set<Branch>
    decreases items
  {
    if items == [] then {} else ItemBranches(items[0]) + BranchesBelow(items[1..])
  }

  ghost function ItemBranches(it: Item): set<Branch>
    decreases it
  {
    match it.node
    case Group(alts) => AllBranches(alts)
    case _ => {}
  }

  ghost predicate NoneRepeat(branches: set<Branch>) {
    forall b, it :: b in branches && it in b.items ==> !Repeats(it.max)
  }

  /** `ContainsRepeat` looks at every depth. */
  lemma {:induction false} RepeatFreeTree(alts: seq<Branch>)
    ensures !ContainsRepeat(alts) <==> NoneRepeat(AllBranches(alts))
    decreases alts
  {
    if alts != [] {
      var rest := alts[1..];
      RepeatFreeTree(rest);
      RepeatFreeItems(alts[0].items);
      assert forall b :: b in alts <==> b == alts[0] || b in rest;
    }
  }

  lemma {:induction false} RepeatFreeItems(items: seq<Item>)
    ensures !ItemsRepeat(items) <==>
              (forall it :: it in items ==> !Repeats(it.max)) && NoneRepeat(BranchesBelow(items))
    decreases items
  {
    if items != [] {
      var rest := items[1..];
      RepeatFreeItems(rest);
      RepeatFreeItem(items[0]);
      assert forall it :: it in items <==> it == items[0] || it in rest;
    }
  }

  lemma {:induction false} RepeatFreeItem(it: Item)
    ensures !ItemRepeats(it) <==> !Repeats(it.max) && NoneRepeat(ItemBranches(it))
    decreases it
  {
    match it.node
    case Group(alts) => RepeatFreeTree(alts);
    case _ =>
  }

  // ----- Prefix-free literal alternatives -----

  predicate SingleLiteral(it: Item) {
    it.node.Chars? && it.node.lit.Exactly? && it.min == 1 && it.max == Finite(1)
  }

  predicate PlainWord(b: Branch) {
    b.items != [] && forall i :: 0 <= i < |b.items| ==> SingleLiteral(b.items[i])
  }

  /** The literal text of a branch of single characters. */
  function Word(b: Branch): (w: string)
    requires PlainWord(b)
    ensures |w| == |b.items| > 0
  {
    seq(|b.items|, i requires 0 <= i < |b.items| => b.items[i].node.lit.c)
  }

  predicate AllPlain(alts: seq<Branch>) {
    forall b :: b in alts ==> PlainWord(b)
  }

  function Words(alts: seq<Branch>): (ws: seq<string>)
    requires AllPlain(alts)
    ensures |ws| == |alts| && forall i :: 0 <= i < |ws| ==> ws[i] == Word(alts[i])
  {
    seq(|alts|, i requires 0 <= i < |alts| => Word(alts[i]))
  }

  /** No word starts another one. */
  predicate PrefixFree(ws: seq<string>) {
    forall i, j | 0 <= i < |ws| && 0 <= j < |ws| && i != j :: !(ws[i] <= ws[j])
  }

  predicate PrefixFreeLiterals(alts: seq<Branch>) {
    AllPlain(alts) && PrefixFree(Words(alts))
  }

  method IsPrefixFreeLiterals(alts: seq<Branch>) returns (r: bool)
    ensures r <==> PrefixFreeLiterals(alts)
  {
    var words := [];
    for i := 0 to |alts|
      invariant forall k :: 0 <= k < i ==> PlainWord(alts[k])
      invariant |words| == i && forall k :: 0 <= k < i ==> words[k] == Word(alts[k])
    {
      var items := alts[i].items;
      var w := "";
      for j := 0 to |items|
        invariant forall k :: 0 <= k < j ==> SingleLiteral(items[k])
        invariant |w| == j && forall k :: 0 <= k < j ==> w[k] == items[k].node.lit.c
      {
        if !SingleLiteral(items[j]) {
          assert !PlainWord(alts[i]) && alts[i] in alts;
          return false;
        }
        w := w + [items[j].node.lit.c];
      }
      if w == "" {
        assert alts[i] in alts;
        return false;
      }
      words := words + [w];
    }
    assert words == Words(alts);
    for i := 0 to |words|
      invariant forall k, j :: 0 <= k < i && 0 <= j < |words| && k != j ==> !(words[k] <= words[j])
    {
      for j := 0 to |words|
        invariant forall l :: 0 <= l < j && i != l ==> !(words[i] <= words[l])
      {
        if i != j && words[i] <= words[j] { return false; }
      }
    }
    return true;
  }

  predicate ValidPicks(ws: seq<string>, picks: seq<nat>) {
    forall k :: 0 <= k < |picks| ==> picks[k] < |ws|
  }

  /** The text spelled by choosing the given branches one after the other. */
  function Spell(ws: seq<string>, picks: seq<nat>): string
    requires ValidPicks(ws, picks)
  {
    if picks == [] then "" else ws[picks[0]] + Spell(ws, picks[1..])
  }

  ghost predicate SameReading(ws: seq<string>, xs: seq<nat>, ys: seq<nat>) {
    ValidPicks(ws, xs) && ValidPicks(ws, ys) && Spell(ws, xs) == Spell(ws, ys)
  }

  /** A prefix code reads every text in at most one way, so repeating it never backtracks into a second reading. */
  lemma {:induction false} UniqueReading(ws: seq<string>, xs: seq<nat>, ys: seq<nat>)
    requires PrefixFree(ws) && "" !in ws
    requires SameReading(ws, xs, ys)
    ensures xs == ys
    decreases |xs|
  {
    if xs != [] && ys != [] {
      var a, b := ws[xs[0]], ws[ys[0]];
      var s, t := Spell(ws, xs[1..]), Spell(ws, ys[1..]);
      assert a + s == b + t;
      assert a == (a + s)[..|a|] && b == (b + t)[..|b|];
      assert a <= b || b <= a;
      assert xs[0] == ys[0];
      assert s == (a + s)[|a|..] == (b + t)[|b|..] == t;
      UniqueReading(ws, xs[1..], ys[1..]);
      assert xs == [xs[0]] + xs[1..] && ys == [ys[0]] + ys[1..];
    }
  }

  // ----- The analysis -----

  function ReachSet(it: Item): CharSet {
    if it.node.Chars? then it.node.chars else FullSet()
  }

  /** Items that do not separate two neighbouring repeats. */
  predicate Transparent(it: Item) {
    it.max.Infinite? || it.node.Zero? || it.min == 0
  }

  /** The unbounded repeats still adjacent after `it`. */
  function NextRun(it: Item, run: seq<CharSet>): seq<CharSet> {
    if it.max.Infinite? then run + [ReachSet(it)]
    else if Transparent(it) then run
    else []
  }

  predicate Clashes(run: seq<CharSet>, s: CharSet) {
    exists r | r in run :: Overlap(r, s)
  }

  /** A repeated group must not nest repeats without bound nor offer ambiguous alternatives. */
  function GroupProblem(it: Item): Option<Problem> {
    match it.node
    case Group(alts) =>
      if it.max.Infinite? && ContainsRepeat(alts) then Some(NestedQuantifier)
      else if Repeats(it.max) && |alts| > 1 && !PrefixFreeLiterals(alts) then Some(AmbiguousAlternation)
      else None
    case _ => None
  }

  function AnalyzeAlts(alts: seq<Branch>, n: nat): (v: Verdict)
    ensures v.Pass? ==> n <= v.n
    decreases alts
  {
    if alts == [] then Pass(n)
    else
      var v := AnalyzeItems(alts[0].items, n, []);
      if v.Fail? then v else AnalyzeAlts(alts[1..], v.n)
  }

  function AnalyzeItems(items: seq<Item>, n: nat, run: seq<CharSet>): (v: Verdict)
    ensures v.Pass? ==> n <= v.n
    decreases items
  {
    if items == [] then Pass(n)
    else
      var v := AnalyzeItem(items[0], n, run);
      if v.Fail? then v else AnalyzeItems(items[1..], v.n, NextRun(items[0], run))
  }

  function AnalyzeItem(it: Item, n: nat, run: seq<CharSet>): (v: Verdict)
    ensures v.Pass? ==> n <= v.n
    decreases it
  {
    var problem := GroupProblem(it);
    if problem.Some? then Fail(problem.value)
    else
      var inner := match it.node { case Group(alts) => AnalyzeAlts(alts, n) case _ => Pass(n) };
      if inner.Fail? then inner
      else if it.max.Infinite? && Clashes(run, ReachSet(it)) then Fail(OverlappingQuantifiers)
      else Tally(it, n, inner.n)
  }

  /** What the body of an `m`-fold repeat added, counted `m` times. */
  function Multiplied(before: nat, after: nat, m: nat): (r: nat)
    requires before <= after && m > 1
    ensures after <= r
  {
    MulNonNegative(after - before, m - 1);
    after + (after - before) * (m - 1)
  }

  lemma {:induction false} MulNonNegative(a: nat, b: nat)
    ensures a * b >= 0
    decreases b
  {
    if b > 0 {
      MulNonNegative(a, b - 1);
      assert a * b == a * (b - 1) + a;
    }
  }

  /** The counter after an item: a bounded repeat multiplies what its body added. */
  function Tally(it: Item, before: nat, after: nat): (v: Verdict)
    requires before <= after
    ensures v.Pass? ==> before <= v.n <= MAX_UNBOUNDED_QUANTIFIERS
  {
    var n := if it.max.Infinite? then after + 1
             else if Repeats(it.max) && it.node.Group? then Multiplied(before, after, it.max.n)
             else after;
    if n > MAX_UNBOUNDED_QUANTIFIERS then Fail(TooManyQuantifiers) else Pass(n)
  }

  method RunClashes(run: seq<CharSet>, s: CharSet) returns (r: bool)
    ensures r <==> Clashes(run, s)
  {
    for k := 0 to |run|
      invariant forall l :: 0 <= l < k ==> !Overlap(run[l], s)
    {
      var clash := Overlaps(run[k], s);
      if clash { return true; }
    }
    return false;
  }

  /** The loop body of `analyze` for one item: the problem, or the counter after it. */
  method AnalyzeOne(it: Item, n: nat, run: seq<CharSet>) returns (v: Verdict)
    ensures v == AnalyzeItem(it, n, run)
    decreases it
  {
    var after: nat := n;
    match it.node {
      case Group(inner) =>
        if Repeats(it.max) {
          if it.max.Infinite? && ContainsRepeat(inner) { return Fail(NestedQuantifier); }
          var free := IsPrefixFreeLiterals(inner);
          if |inner| > 1 && !free { return Fail(AmbiguousAlternation); }
        }
        var err := Analyze(inner, n);
        if err.Fail? { return err; }
        after := err.n;
        if Repeats(it.max) && it.max.Finite? { after := Multiplied(n, after, it.max.n); }
      case _ =>
    }
    if it.max.Infinite? {
      after := after + 1;
      var clash := RunClashes(run, ReachSet(it));
      if clash { return Fail(OverlappingQuantifiers); }
    }
    if after > MAX_UNBOUNDED_QUANTIFIERS { return Fail(TooManyQuantifiers); }
    return Pass(after);
  }

  method Analyze(alts: seq<Branch>, start: nat) returns (v: Verdict)
    ensures v == AnalyzeAlts(alts, start)
    decreases alts
  {
    var n: nat := start;
    for i := 0 to |alts|
      invariant AnalyzeAlts(alts, start) == AnalyzeAlts(alts[i..], n)
    {
      assert alts[i..][1..] == alts[i + 1..];
      var items := alts[i].items;
      var run := [];
      ghost var before: nat := n;
      for j := 0 to |items|
        invariant AnalyzeItems(items, before, []) == AnalyzeItems(items[j..], n, run)
      {
        assert items[j..][1..] == items[j + 1..];
        var it := items[j];
        var one := AnalyzeOne(it, n, run);
        if one.Fail? { return one; }
        n := one.n;
        if it.max.Infinite? {
          run := run + [ReachSet(it)];
        } else if it.node.Zero? || it.min == 0 {
        } else {
          run := [];
        }
      }
    }
    v := Pass(n);
  }

  // ----- What acceptance means -----

  /** Unbounded repeats, a bounded repeat counting its body once per copy (never less than once). */
  ghost function Weight(alts: seq<Branch>): nat
    decreases alts
  {
    if alts == [] then 0 else ItemsWeight(alts[0].items) + Weight(alts[1..])
  }

  ghost function ItemsWeight(items: seq<Item>): nat
    decreases items
  {
    if items == [] then 0 else ItemWeight(items[0]) + ItemsWeight(items[1..])
  }

  ghost function ItemWeight(it: Item): nat
    decreases it
  {
    var inner := match it.node { case Group(alts) => Weight(alts) case _ => 0 };
    match it.max
    case Infinite => inner + 1
    case Finite(m) => if m > 1 then inner * m else inner
  }

  /** No repeated item is adjacent to an earlier one it shares a character with. */
  ghost predicate NoAdjacentOverlap(items: seq<Item>) {
    forall i, j :: 0 <= i < j < |items| && Adjacent(items, i, j) ==> !Overlap(ReachSet(items[i]), ReachSet(items[j]))
  }

  /** Two unbounded items with nothing between them that must consume a character. */
  ghost predicate Adjacent(items: seq<Item>, i: nat, j: nat)
    requires i < j < |items|
  {
    items[i].max.Infinite? && items[j].max.Infinite? && forall k :: i < k < j ==> Transparent(items[k])
  }

  ghost predicate BranchSafe(b: Branch) {
    (forall it :: it in b.items ==> GroupProblem(it).None?) && NoAdjacentOverlap(b.items)
  }

  ghost predicate AllSafe(branches: set<Branch>) {
    forall b :: b in branches ==> BranchSafe(b)
  }

  /** `NoAdjacentOverlap` with the repeats in `run` in front of the items. */
  ghost predicate NoOverlapAfter(items: seq<Item>, run: seq<CharSet>)
    decreases |items|
  {
    items == [] ||
    ((items[0].max.Infinite? ==> !Clashes(run, ReachSet(items[0]))) &&
     NoOverlapAfter(items[1..], NextRun(items[0], run)))
  }

  /** The items before `j` all let the run in front through. */
  ghost predicate ClearUpTo(items: seq<Item>, j: nat)
    requires j <= |items|
  {
    forall k :: 0 <= k < j ==> Transparent(items[k])
  }

  lemma AdjacencyShifts(items: seq<Item>)
    requires items != []
    ensures var rest := items[1..];
            NoAdjacentOverlap(items) <==>
              NoAdjacentOverlap(rest) &&
              forall j :: 0 <= j < |rest| && Adjacent(items, 0, j + 1) ==>
                            !Overlap(ReachSet(items[0]), ReachSet(rest[j]))
  {
    var rest := items[1..];
    assert forall k :: 0 <= k < |rest| ==> rest[k] == items[k + 1];
    forall i, j | 0 <= i < j < |rest|
      ensures Adjacent(rest, i, j) <==> Adjacent(items, i + 1, j + 1)
    {
      assert forall k :: i + 1 < k < j + 1 ==> items[k] == rest[k - 1];
    }
  }

  lemma {:induction false} RunIsAdjacency(items: seq<Item>, run: seq<CharSet>)
    ensures NoOverlapAfter(items, run) <==>
              NoAdjacentOverlap(items) &&
              forall j :: 0 <= j < |items| && items[j].max.Infinite? && ClearUpTo(items, j) ==>
                            !Clashes(run, ReachSet(items[j]))
    decreases |items|
  {
    if items != [] {
      var head, rest := items[0], items[1..];
      RunIsAdjacency(rest, NextRun(head, run));
      AdjacencyShifts(items);
      assert forall k :: 0 <= k < |rest| ==> rest[k] == items[k + 1];
      forall j | 0 <= j < |rest|
        ensures ClearUpTo(items, j + 1) <==> Transparent(head) && ClearUpTo(rest, j)
        ensures head.max.Infinite? && rest[j].max.Infinite? ==> (Adjacent(items, 0, j + 1) <==> ClearUpTo(rest, j))
      {
        assert forall k :: 1 <= k < j + 1 ==> items[k] == rest[k - 1];
      }
    }
  }

  lemma {:induction false} AnalyzeAltsExact(alts: seq<Branch>, n: nat)
    requires n <= MAX_UNBOUNDED_QUANTIFIERS
    ensures var v := AnalyzeAlts(alts, n);
            (v.Pass? <==> AllSafe(AllBranches(alts)) && n + Weight(alts) <= MAX_UNBOUNDED_QUANTIFIERS) &&
            (v.Pass? ==> v.n == n + Weight(alts))
    decreases alts
  {
    if alts != [] {
      var items := alts[0].items;
      AnalyzeItemsExact(items, n, []);
      RunIsAdjacency(items, []);
      if n + ItemsWeight(items) <= MAX_UNBOUNDED_QUANTIFIERS {
        AnalyzeAltsExact(alts[1..], n + ItemsWeight(items));
      }
    }
  }

  lemma {:induction false} AnalyzeItemsExact(items: seq<Item>, n: nat, run: seq<CharSet>)
    requires n <= MAX_UNBOUNDED_QUANTIFIERS
    ensures var v := AnalyzeItems(items, n, run);
            (v.Pass? <==> (forall it :: it in items ==> GroupProblem(it).None?) && NoOverlapAfter(items, run) &&
                          AllSafe(BranchesBelow(items)) && n + ItemsWeight(items) <= MAX_UNBOUNDED_QUANTIFIERS) &&
            (v.Pass? ==> v.n == n + ItemsWeight(items))
    decreases items
  {
    if items != [] {
      var head, rest := items[0], items[1..];
      AnalyzeItemExact(head, n, run);
      assert forall it :: it in items <==> it == head || it in rest;
      if n + ItemWeight(head) <= MAX_UNBOUNDED_QUANTIFIERS {
        AnalyzeItemsExact(rest, n + ItemWeight(head), NextRun(head, run));
      }
    }
  }

  lemma {:induction false} AnalyzeItemExact(it: Item, n: nat, run: seq<CharSet>)
    requires n <= MAX_UNBOUNDED_QUANTIFIERS
    ensures var v := AnalyzeItem(it, n, run);
            (v.Pass? <==> GroupProblem(it).None? && (it.max.Infinite? ==> !Clashes(run, ReachSet(it))) &&
                          AllSafe(ItemBranches(it)) && n + ItemWeight(it) <= MAX_UNBOUNDED_QUANTIFIERS) &&
            (v.Pass? ==> v.n == n + ItemWeight(it))
    decreases it
  {
    match it.node
    case Group(alts) =>
      AnalyzeAltsExact(alts, n);
      if it.max.Finite? && it.max.n > 1 {
        var w, m := Weight(alts), it.max.n;
        assert w + w * (m - 1) == w * m;
        assert w <= w * m by { assert w * m == w + w * (m - 1); assert w * (m - 1) >= 0; }
      }
    case _ =>
  }

  /**
   * The analyser accepts exactly the trees whose branches are all safe, at every depth, and whose
   * weight stays within the limit.
   */
  lemma AcceptedExactly(alts: seq<Branch>)
    ensures AnalyzeAlts(alts, 0).Pass? <==>
              AllSafe(AllBranches(alts)) && Weight(alts) <= MAX_UNBOUNDED_QUANTIFIERS
  {
    AnalyzeAltsExact(alts, 0);
  }

  /** A repeated group of an accepted tree: nothing repeats inside it, and its alternatives read unambiguously. */
  lemma AcceptedGroups(alts: seq<Branch>, b: Branch, it: Item)
    requires AnalyzeAlts(alts, 0).Pass? && b in AllBranches(alts) && it in b.items && it.node.Group?
    ensures it.max.Infinite? ==> NoneRepeat(AllBranches(it.node.alts))
    ensures Repeats(it.max) && |it.node.alts| > 1 ==> PrefixFreeLiterals(it.node.alts)
    ensures Repeats(it.max) && |it.node.alts| > 1 ==>
              forall xs, ys :: SameReading(Words(it.node.alts), xs, ys) ==> xs == ys
  {
    AcceptedExactly(alts);
    assert GroupProblem(it).None?;
    RepeatFreeTree(it.node.alts);
    if Repeats(it.max) && |it.node.alts| > 1 {
      var ws := Words(it.node.alts);
      forall xs, ys | SameReading(ws, xs, ys)
        ensures xs == ys
      {
        UniqueReading(ws, xs, ys);
      }
    }
  }

  // ----- Expanding bounded repeats -----

  /** `m` copies, the first `min` of them mandatory. */
  ghost function Copies(node: Node, min: nat, m: nat): seq<Item> {
    seq(m, k => Item(node, if k < min then 1 else 0, Finite(1)))
  }

  ghost function ExpandAlts(alts: seq<Branch>): seq<Branch>
    decreases alts
  {
    if alts == [] then [] else [Branch(ExpandItems(alts[0].items))] + ExpandAlts(alts[1..])
  }

  ghost function ExpandItems(items: seq<Item>): seq<Item>
    decreases items
  {
    if items == [] then [] else ExpandItem(items[0]) + ExpandItems(items[1..])
  }

  /** A bounded repeat written out as copies of its body. */
  ghost function ExpandItem(it: Item): seq<Item>
    decreases it
  {
    var node := match it.node { case Group(alts) => Group(ExpandAlts(alts)) case n => n };
    match it.max
    case Infinite => [Item(node, it.min, Infinite)]
    case Finite(m) => Copies(node, it.min, m)
  }

  ghost function Unbounded(alts: seq<Branch>): nat
    decreases alts
  {
    if alts == [] then 0 else ItemsUnbounded(alts[0].items) + Unbounded(alts[1..])
  }

  ghost function ItemsUnbounded(items: seq<Item>): nat
    decreases items
  {
    if items == [] then 0 else ItemUnbounded(items[0]) + ItemsUnbounded(items[1..])
  }

  /** Unbounded repeats in an item and below it. */
  ghost function ItemUnbounded(it: Item): nat
    decreases it
  {
    (if it.max.Infinite? then 1 else 0) + match it.node { case Group(alts) => Unbounded(alts) case _ => 0 }
  }

  lemma {:induction false} UnboundedConcat(a: seq<Item>, b: seq<Item>)
    ensures ItemsUnbounded(a + b) == ItemsUnbounded(a) + ItemsUnbounded(b)
    decreases |a|
  {
    if a == [] {
      assert a + b == b;
    } else {
      assert (a + b)[1..] == a[1..] + b;
      UnboundedConcat(a[1..], b);
    }
  }

  lemma MulStep(m: nat, u: nat)
    requires m > 0
    ensures m * u == u + (m - 1) * u
  {
  }

  lemma MulMonotone(m: nat, u: nat, w: nat)
    requires u <= w
    ensures m * u <= m * w
  {
  }

  lemma {:induction false} CopiesUnbounded(node: Node, min: nat, m: nat)
    ensures ItemsUnbounded(Copies(node, min, m)) == m * ItemUnbounded(Item(node, 1, Finite(1)))
    decreases m
  {
    if m > 0 {
      var c := Copies(node, min, m);
      assert c[1..] == Copies(node, if min > 0 then min - 1 else 0, m - 1);
      CopiesUnbounded(node, if min > 0 then min - 1 else 0, m - 1);
      var u := ItemUnbounded(Item(node, 1, Finite(1)));
      assert ItemUnbounded(c[0]) == u;
      MulStep(m, u);
    }
  }

  lemma {:induction false} ExpansionWithinWeight(alts: seq<Branch>)
    ensures Unbounded(ExpandAlts(alts)) <= Weight(alts)
    decreases alts
  {
    if alts != [] {
      ItemsExpansionWithinWeight(alts[0].items);
      ExpansionWithinWeight(alts[1..]);
    }
  }

  lemma {:induction false} ItemsExpansionWithinWeight(items: seq<Item>)
    ensures ItemsUnbounded(ExpandItems(items)) <= ItemsWeight(items)
    decreases items
  {
    if items != [] {
      ItemExpansionWithinWeight(items[0]);
      ItemsExpansionWithinWeight(items[1..]);
      UnboundedConcat(ExpandItem(items[0]), ExpandItems(items[1..]));
    }
  }

  lemma {:induction false} ItemExpansionWithinWeight(it: Item)
    ensures ItemsUnbounded(ExpandItem(it)) <= ItemWeight(it)
    decreases it
  {
    var node := match it.node { case Group(alts) => Group(ExpandAlts(alts)) case n => n };
    var u := ItemUnbounded(Item(node, 1, Finite(1)));
    var w := match it.node { case Group(alts) => Weight(alts) case _ => 0 };
    assert u <= w by {
      match it.node
      case Group(alts) => ExpansionWithinWeight(alts);
      case _ =>
    }
    match it.max
    case Infinite =>
      assert ItemsUnbounded([Item(node, it.min, Infinite)]) == ItemUnbounded(Item(node, it.min, Infinite));
    case Finite(m) =>
      CopiesUnbounded(node, it.min, m);
      MulMonotone(m, u, w);
  }

  /** Writing out the bounded repeats of an accepted tree leaves at most four unbounded ones. */
  lemma AcceptedExpansion(alts: seq<Branch>)
    requires AnalyzeAlts(alts, 0).Pass?
    ensures Unbounded(ExpandAlts(alts)) <= MAX_UNBOUNDED_QUANTIFIERS
  {
    AcceptedExactly(alts);
    ExpansionWithinWeight(alts);
  }
}
