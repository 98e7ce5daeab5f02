/** Balanced JSON roots in script text (fluxDown/utils/dash-manifest.ts, `extractJsonRoots`). */
module JsonRoots {
  import opened Sequences

  const MAX_JSON_ROOTS := 64

  datatype Mode = Code | Quote(q: char, escaped: bool) | LineComment | BlockComment

  /** What one lexical step yields: the mode after it, where it ends, and the bracket it read, if any. */
  datatype Lexed = Lexed(mode: Mode, next: nat, bracket: string)

  predicate IsQuote(c: char) {
    c == '"' || c == '\'' || c == '`'
  }

  predicate IsOpen(c: char) {
    c == '{' || c == '['
  }

  predicate IsClose(c: char) {
    c == '}' || c == ']'
  }

  predicate Matching(open: char, close: char) {
    (open == '{' && close == '}') || (open == '[' && close == ']')
  }

  predicate Pair(t: string, i: nat, a: char, b: char) {
    i + 1 < |t| && t[i] == a && t[i + 1] == b
  }

  /** One step of the scanner at `i`; brackets count only in code. */
  function Lex(t: string, i: nat, mode: Mode): (l: Lexed)
    requires i < |t|
    ensures i < l.next <= |t|
    ensures |l.bracket| <= 1 && (l.bracket != "" ==> mode == Code == l.mode && l.next == i + 1 && l.bracket[0] == t[i])
  {
    var c := t[i];
    match mode
    case LineComment => Lexed(if c == '\n' || c == '\r' then Code else mode, i + 1, "")
    case BlockComment => if Pair(t, i, '*', '/') then Lexed(Code, i + 2, "") else Lexed(mode, i + 1, "")
    case Quote(q, escaped) =>
      if escaped then Lexed(Quote(q, false), i + 1, "")
      else if c == '\\' then Lexed(Quote(q, true), i + 1, "")
      else if c == q then Lexed(Code, i + 1, "")
      else Lexed(mode, i + 1, "")
    case Code =>
      if Pair(t, i, '/', '/') then Lexed(LineComment, i + 2, "")
      else if Pair(t, i, '/', '*') then Lexed(BlockComment, i + 2, "")
      else if IsQuote(c) then Lexed(Quote(c, false), i + 1, "")
      else if IsOpen(c) || IsClose(c) then Lexed(Code, i + 1, [c])
      else Lexed(Code, i + 1, "")
  }

  datatype Span = Span(first: nat, last: nat)

  predicate TopMatches(stack: string, c: char) {
    stack != "" && Matching(stack[|stack| - 1], c)
  }

  /** The roots found from `i` on, given the open brackets and where the outermost one is. */
  function Scan(t: string, i: nat, mode: Mode, stack: string, start: nat): seq<Span>
    requires i <= |t|
    decreases |t| - i
  {
    if i == |t| then []
    else
      var l := Lex(t, i, mode);
      if l.bracket == "" then Scan(t, l.next, l.mode, stack, start)
      else if IsOpen(t[i]) then Scan(t, l.next, Code, stack + [t[i]], if stack == "" then i else start)
      else if !TopMatches(stack, t[i]) then Scan(t, l.next, Code, "", start)
      else if |stack| == 1 then [Span(start, i)] + Scan(t, l.next, Code, "", start)
      else Scan(t, l.next, Code, stack[..|stack| - 1], start)
  }

  // ----- Shape of the roots -----

  /** Left to right, disjoint, opened and closed by matching brackets. */
  ghost predicate InOrder(t: string, spans: seq<Span>, from: nat) {
    (forall k :: 0 <= k < |spans| ==>
      from <= spans[k].first < spans[k].last < |t| && Matching(t[spans[k].first], t[spans[k].last])) &&
    forall j, k :: 0 <= j < k < |spans| ==> spans[j].last < spans[k].first
  }

  lemma InOrderCons(t: string, first: Span, rest: seq<Span>, from: nat)
    requires InOrder(t, rest, from) && first.first < first.last < |t| && first.last < from
    requires Matching(t[first.first], t[first.last])
    ensures InOrder(t, [first] + rest, first.first)
  {
  }

  /** In order, starting at `from` or later and ending at `i` or later. */
  ghost predicate Ahead(t: string, spans: seq<Span>, from: nat, i: nat) {
    InOrder(t, spans, from) && forall k :: 0 <= k < |spans| ==> i <= spans[k].last
  }

  lemma AheadOfEarlier(t: string, spans: seq<Span>, from: nat, i: nat, from': nat, i': nat)
    requires Ahead(t, spans, from, i) && from' <= from && i' <= i
    ensures Ahead(t, spans, from', i')
  {
  }

  lemma AheadCons(t: string, first: Span, rest: seq<Span>, next: nat)
    requires Ahead(t, rest, next, next) && first.first < first.last < |t| && first.last < next
    requires Matching(t[first.first], t[first.last])
    ensures Ahead(t, [first] + rest, first.first, first.last)
  {
    InOrderCons(t, first, rest, next);
  }

  lemma {:induction false} RootsInOrder(t: string, i: nat, mode: Mode, stack: string, start: nat)
    requires i <= |t|
    requires stack != "" ==> start < i && t[start] == stack[0]
    ensures Ahead(t, Scan(t, i, mode, stack, start), if stack == "" then i else start, i)
    decreases |t| - i
  {
    if i < |t| {
      var l := Lex(t, i, mode);
      var from := if stack == "" then i else start;
      if l.bracket == "" {
        RootsInOrder(t, l.next, l.mode, stack, start);
        AheadOfEarlier(t, Scan(t, l.next, l.mode, stack, start), if stack == "" then l.next else start, l.next, from, i);
      } else if IsOpen(t[i]) {
        RootsInOrder(t, l.next, Code, stack + [t[i]], from);
        AheadOfEarlier(t, Scan(t, l.next, Code, stack + [t[i]], from), from, l.next, from, i);
      } else if !TopMatches(stack, t[i]) {
        RootsInOrder(t, l.next, Code, "", start);
        AheadOfEarlier(t, Scan(t, l.next, Code, "", start), l.next, l.next, from, i);
      } else if |stack| == 1 {
        RootsInOrder(t, l.next, Code, "", start);
        AheadCons(t, Span(start, i), Scan(t, l.next, Code, "", start), l.next);
      } else {
        RootsInOrder(t, l.next, Code, stack[..|stack| - 1], start);
        AheadOfEarlier(t, Scan(t, l.next, Code, stack[..|stack| - 1], start), start, l.next, from, i);
      }
    }
  }

  // ----- Balance, by a grammar of nested brackets -----

  datatype Tree = Tree(open: char, kids: seq<Tree>)

  function CloserOf(open: char): char {
    if open == '{' then '}' else ']'
  }

  ghost function TreeWord(tree: Tree): string
    decreases tree
  {
    match tree
    case Tree(open, kids) => [open] + ForestWord(kids) + [CloserOf(open)]
  }

  ghost function ForestWord(trees: seq<Tree>): string
    decreases trees
  {
    if trees == [] then "" else TreeWord(trees[0]) + ForestWord(trees[1..])
  }

  /** The brackets that count (outside strings and comments), from `i` on. */
  function Brackets(t: string, i: nat, mode: Mode): string
    requires i <= |t|
    decreases |t| - i
  {
    if i == |t| then ""
    else
      var l := Lex(t, i, mode);
      l.bracket + Brackets(t, l.next, l.mode)
  }

  /** `w` closes everything in `stack`, the last of it with its last character. */
  predicate Closes(w: string, stack: string)
    decreases |w|
  {
    w != "" && stack != "" &&
    if IsOpen(w[0]) then Closes(w[1..], stack + [w[0]])
    else TopMatches(stack, w[0]) && if |stack| == 1 then |w| == 1 else Closes(w[1..], stack[..|stack| - 1])
  }

  /** Up to the bracket that closes the innermost open one, the word is a forest. */
  lemma {:induction false} Peel(w: string, stack: string, open: char) returns (f: seq<Tree>, rest: string)
    requires IsOpen(open) && Closes(w, stack + [open])
    ensures w == ForestWord(f) + [CloserOf(open)] + rest
    ensures if stack == "" then rest == "" else Closes(rest, stack)
    decreases |w|
  {
    var all := stack + [open];
    assert w == [w[0]] + w[1..];
    assert all[..|all| - 1] == stack;
    if IsOpen(w[0]) {
      var kids, r1 := Peel(w[1..], all, w[0]);
      var f2, r2 := Peel(r1, stack, open);
      var tree := Tree(w[0], kids);
      f, rest := [tree] + f2, r2;
      assert ForestWord(f) == TreeWord(tree) + ForestWord(f2) by { assert f[1..] == f2; }
      Regroup([w[0]], ForestWord(kids), [CloserOf(w[0])], ForestWord(f2), [CloserOf(open)], r2);
    } else {
      f, rest := [], w[1..];
      assert ForestWord(f) + [CloserOf(open)] + rest == w;
    }
  }

  lemma Regroup(o: string, k: string, c: string, f: string, d: string, r: string)
    ensures o + (k + c + (f + d + r)) == ((o + k + c) + f) + d + r
  {
  }

  /** With nothing open, every root still to come starts later. */
  lemma LaterRoots(t: string, i: nat, mode: Mode, start: nat)
    requires i <= |t|
    ensures var spans := Scan(t, i, mode, "", start); spans != [] ==> spans[0].first >= i
  {
    RootsInOrder(t, i, mode, "", start);
  }

  /** A root completed at the end of the text: its remaining brackets close what is open. */
  lemma {:induction false} CompletionCloses(t: string, i: nat, mode: Mode, stack: string, start: nat)
    requires i <= |t| && stack != "" && start < i && t[start] == stack[0]
    requires Scan(t, i, mode, stack, start) == [Span(start, |t| - 1)]
    ensures Closes(Brackets(t, i, mode), stack)
    decreases |t| - i
  {
    var l := Lex(t, i, mode);
    var w := Brackets(t, l.next, l.mode);
    if l.bracket == "" {
      assert l.bracket + w == w;
      CompletionCloses(t, l.next, l.mode, stack, start);
    } else {
      assert l.bracket + w == [t[i]] + w && ([t[i]] + w)[1..] == w;
      if IsOpen(t[i]) {
        CompletionCloses(t, l.next, Code, stack + [t[i]], start);
      } else if !TopMatches(stack, t[i]) {
        LaterRoots(t, l.next, Code, start);
      } else if |stack| == 1 {
        assert ([Span(start, i)] + Scan(t, l.next, Code, "", start))[0] == Span(start, i);
      } else {
        CompletionCloses(t, l.next, Code, stack[..|stack| - 1], start);
      }
    }
  }

  /** Outside strings and comments, a root is exactly one well-nested tree of brackets. */
  lemma RootIsATree(r: string) returns (tree: Tree)
    requires r != "" && Scan(r, 0, Code, "", 0) == [Span(0, |r| - 1)]
    ensures Brackets(r, 0, Code) == TreeWord(tree) && tree.open == r[0]
  {
    RootsInOrder(r, 0, Code, "", 0);
    assert Scan(r, 0, Code, "", 0)[0] == Span(0, |r| - 1);
    assert Matching(r[0], r[|r| - 1]);
    assert "" + [r[0]] == [r[0]];
    CompletionCloses(r, 1, Code, [r[0]], 0);
    var w := Brackets(r, 1, Code);
    assert "" + [r[0]] == [r[0]];
    var kids, rest := Peel(w, "", r[0]);
    tree := Tree(r[0], kids);
    assert w == ForestWord(kids) + [CloserOf(r[0])];
    assert Brackets(r, 0, Code) == [r[0]] + w;
  }

  // ----- Scanning a root by itself -----

  lemma LexInside(t: string, start: nat, last: nat, i: nat, mode: Mode)
    requires start <= i <= last < |t|
    requires Lex(t, i, mode).next <= last || Lex(t, i, mode).bracket != ""
    ensures var a, b := Lex(t, i, mode), Lex(t[start..last + 1], i - start, mode);
            b == Lexed(a.mode, a.next - start, a.bracket)
  {
    var r := t[start..last + 1];
    assert forall k :: start <= k <= last ==> r[k - start] == t[k];
  }

  /** The open brackets behind position i, where that neither breaks nor ends a root. */
  function StackAfter(t: string, i: nat, mode: Mode, stack: string): string
    requires i < |t|
  {
    if Lex(t, i, mode).bracket == "" then stack
    else if IsOpen(t[i]) then stack + [t[i]]
    else if stack == "" then "" else stack[..|stack| - 1]
  }

  ghost predicate GoesOn(t: string, i: nat, mode: Mode, stack: string)
    requires i < |t|
  {
    stack != "" && (Lex(t, i, mode).bracket != "" && !IsOpen(t[i]) ==> TopMatches(stack, t[i]) && |stack| > 1)
  }

  /** The next root to end is the one begun at `start`, and it ends at `last`. */
  ghost predicate EndsAt(t: string, i: nat, mode: Mode, stack: string, start: nat, last: nat) {
    i <= |t| && (var spans := Scan(t, i, mode, stack, start); spans != [] && spans[0] == Span(start, last))
  }

  /** From here on the text is the rest of one root that began at its first character. */
  ghost predicate OnlyRoot(r: string, i: nat, mode: Mode, stack: string) {
    r != "" && i <= |r| && Scan(r, i, mode, stack, 0) == [Span(0, |r| - 1)]
  }

  lemma ScanGoesOn(t: string, i: nat, mode: Mode, stack: string, start: nat)
    requires i < |t| && GoesOn(t, i, mode, stack)
    ensures var l := Lex(t, i, mode);
      Scan(t, i, mode, stack, start) == Scan(t, l.next, l.mode, StackAfter(t, i, mode, stack), start)
  {
  }

  /** The closing bracket of a root ends the root's own text as well. */
  lemma ClosesInside(t: string, i: nat, mode: Mode, stack: string, start: nat, last: nat)
    requires i < |t| && |stack| == 1 && start < i && EndsAt(t, i, mode, stack, start, last)
    requires Lex(t, i, mode).bracket != "" && !IsOpen(t[i]) && TopMatches(stack, t[i])
    ensures last == i && OnlyRoot(t[start..i + 1], i - start, mode, stack)
  {
    LexInside(t, start, i, i, mode);
    assert Scan(t[start..i + 1], i + 1 - start, Code, "", 0) == [];
  }

  /** A bracket that does not fit gives up the root begun at `start`. */
  lemma BrokenOff(t: string, i: nat, mode: Mode, stack: string, start: nat, last: nat)
    requires start < i < |t| && Lex(t, i, mode).bracket != "" && !IsOpen(t[i]) && !TopMatches(stack, t[i])
    ensures !EndsAt(t, i, mode, stack, start, last)
  {
    LaterRoots(t, Lex(t, i, mode).next, Code, start);
  }

  /** A step inside the root's own text. */
  lemma StepInside(t: string, i: nat, mode: Mode, stack: string, start: nat, last: nat)
    requires start < i < |t| && GoesOn(t, i, mode, stack) && Lex(t, i, mode).next <= last < |t|
    requires OnlyRoot(t[start..last + 1], Lex(t, i, mode).next - start, Lex(t, i, mode).mode, StackAfter(t, i, mode, stack))
    ensures OnlyRoot(t[start..last + 1], i - start, mode, stack)
  {
    var r := t[start..last + 1];
    LexInside(t, start, last, i, mode);
    assert r[i - start] == t[i];
    ScanGoesOn(r, i - start, mode, stack, 0);
  }

  lemma StepOutside(t: string, i: nat, mode: Mode, stack: string, start: nat, last: nat)
    requires i < |t| && GoesOn(t, i, mode, stack) && EndsAt(t, i, mode, stack, start, last)
    ensures EndsAt(t, Lex(t, i, mode).next, Lex(t, i, mode).mode, StackAfter(t, i, mode, stack), start, last)
  {
    ScanGoesOn(t, i, mode, stack, start);
  }

  /** Having opened at `start`, the scanner does the same inside the root's own text. */
  lemma {:induction false} ScanInside(t: string, i: nat, mode: Mode, stack: string, start: nat, last: nat)
    requires i <= |t| && stack != "" && start < i && t[start] == stack[0] && EndsAt(t, i, mode, stack, start, last)
    ensures i <= last < |t| && OnlyRoot(t[start..last + 1], i - start, mode, stack)
    decreases |t| - i
  {
    assert i < |t|;
    var l := Lex(t, i, mode);
    if GoesOn(t, i, mode, stack) {
      StepOutside(t, i, mode, stack, start, last);
      ScanInside(t, l.next, l.mode, StackAfter(t, i, mode, stack), start, last);
      StepInside(t, i, mode, stack, start, last);
    } else if TopMatches(stack, t[i]) {
      ClosesInside(t, i, mode, stack, start, last);
    } else {
      BrokenOff(t, i, mode, stack, start, last);
    }
  }

  ghost predicate Alone(t: string, s: Span) {
    s.first <= s.last < |t| &&
    Scan(t[s.first..s.last + 1], 0, Code, "", 0) == [Span(0, s.last - s.first)]
  }

  lemma OpenedHere(t: string, i: nat)
    requires i < |t| && IsOpen(t[i])
    requires var spans := Scan(t, i + 1, Code, [t[i]], i); spans != [] && spans[0].first == i
    ensures Alone(t, Scan(t, i + 1, Code, [t[i]], i)[0])
  {
    var first := Scan(t, i + 1, Code, [t[i]], i)[0];
    ScanInside(t, i + 1, Code, [t[i]], i, first.last);
    var r := t[i..Scan(t, i + 1, Code, [t[i]], i)[0].last + 1];
    assert r[0] == t[i];
    assert "" + [r[0]] == [r[0]];
    assert Scan(r, 0, Code, "", 0) == Scan(r, 1, Code, [r[0]], 0);
  }

  /** Every root, scanned by itself, is found again as the only root. */
  lemma {:induction false} RootAlone(t: string, i: nat, mode: Mode, stack: string, start: nat, k: nat)
    requires i <= |t|
    requires var spans := Scan(t, i, mode, stack, start);
             k < |spans| && (stack != "" ==> start < i && (k > 0 || spans[0].first != start))
    ensures Alone(t, Scan(t, i, mode, stack, start)[k])
    decreases |t| - i
  {
    var l := Lex(t, i, mode);
    if l.bracket == "" {
      RootAlone(t, l.next, l.mode, stack, start, k);
    } else if IsOpen(t[i]) {
      var start' := if stack == "" then i else start;
      var spans := Scan(t, l.next, Code, stack + [t[i]], start');
      if stack == "" && k == 0 && spans[0].first == i {
        assert stack + [t[i]] == [t[i]];
        OpenedHere(t, i);
      } else {
        RootAlone(t, l.next, Code, stack + [t[i]], start', k);
      }
    } else if !TopMatches(stack, t[i]) {
      RootAlone(t, l.next, Code, "", start, k);
    } else if |stack| == 1 {
      var rest := Scan(t, l.next, Code, "", start);
      assert ([Span(start, i)] + rest)[k] == if k == 0 then Span(start, i) else rest[k - 1];
      RootAlone(t, l.next, Code, "", start, k - 1);
    } else {
      RootAlone(t, l.next, Code, stack[..|stack| - 1], start, k);
    }
  }

  // ----- The scanner -----

  ghost function ModeOf(quote: string, escaped: bool, lineComment: bool, blockComment: bool): Mode {
    if lineComment then LineComment
    else if blockComment then BlockComment
    else if quote != "" then Quote(quote[0], escaped)
    else Code
  }

  ghost function Roots(t: string): seq<Span> {
    var all := Scan(t, 0, Code, "", 0);
    if |all| > MAX_JSON_ROOTS then all[..MAX_JSON_ROOTS] else all
  }

  ghost predicate IsOneTree(r: string) {
    exists tree :: Brackets(r, 0, Code) == TreeWord(tree)
  }

  ghost predicate Sound(t: string, s: Span) {
    Alone(t, s) && IsOneTree(t[s.first..s.last + 1])
  }

  lemma RootSound(t: string, k: nat)
    requires k < |Scan(t, 0, Code, "", 0)|
    ensures Sound(t, Scan(t, 0, Code, "", 0)[k])
  {
    RootAlone(t, 0, Code, "", 0, k);
    var s := Scan(t, 0, Code, "", 0)[k];
    var tree := RootIsATree(t[s.first..s.last + 1]);
  }

  /** All that is promised of the roots of any text. */
  lemma RootsAreSound(t: string)
    ensures |Roots(t)| <= MAX_JSON_ROOTS && InOrder(t, Roots(t), 0)
    ensures forall k :: 0 <= k < |Roots(t)| ==> Sound(t, Roots(t)[k])
  {
    RootsInOrder(t, 0, Code, "", 0);
    forall k | 0 <= k < |Roots(t)|
      ensures Sound(t, Roots(t)[k])
    {
      RootSound(t, k);
    }
  }

  ghost function Texts(t: string, spans: seq<Span>): seq<string> {
    if spans == [] then []
    else
      var s := spans[|spans| - 1];
      Texts(t, spans[..|spans| - 1]) + [TextOf(t, s)]
  }

  ghost function TextOf(t: string, s: Span): string {
    if s.first <= s.last < |t| then t[s.first..s.last + 1] else ""
  }

  /** In at most one string or comment at a time. */
  predicate OneState(quote: string, escaped: bool, lineComment: bool, blockComment: bool) {
    |quote| <= 1 && (lineComment || blockComment ==> quote == "") && !(lineComment && blockComment) &&
    (quote == "" ==> !escaped)
  }

  /** The lexical half of the loop body: strings and comments; true when the character at `i` is code. */
  method Skip(t: string, at: nat, quote: string, escaped: bool, lineComment: bool, blockComment: bool)
    returns (code: bool, next: nat, q: string, e: bool, l: bool, b: bool)
    requires at < |t| && OneState(quote, escaped, lineComment, blockComment)
    ensures OneState(q, e, l, b)
    ensures var lexed := Lex(t, at, ModeOf(quote, escaped, lineComment, blockComment));
            next == lexed.next && ModeOf(q, e, l, b) == lexed.mode &&
            (lexed.bracket != "" <==> code && (IsOpen(t[at]) || IsClose(t[at]))) &&
            (code ==> lexed.mode == Code && ModeOf(quote, escaped, lineComment, blockComment) == Code)
  {
    var c := t[at];
    code, next, q, e, l, b := false, at + 1, quote, escaped, lineComment, blockComment;
    if l {
      if c == '\n' || c == '\r' { l := false; }
    } else if b {
      if Pair(t, at, '*', '/') { b, next := false, at + 2; }
    } else if q != "" {
      if e {
        e := false;
      } else if c == '\\' {
        e := true;
      } else if c == q[0] {
        q := "";
      }
    } else if Pair(t, at, '/', '/') {
      l, next := true, at + 2;
    } else if Pair(t, at, '/', '*') {
      b, next := true, at + 2;
    } else if IsQuote(c) {
      q := [c];
    } else {
      code := true;
    }
  }

  /** The root that a closing bracket ends, if it ends one. */
  function Ended(found: bool, start: nat, at: nat): seq<Span> {
    if found then [Span(start, at)] else []
  }

  /** The character of code at `at` ends these roots; the others come from behind it. */
  ghost predicate Splits(t: string, at: nat, stack: string, start: nat, found: seq<Span>, open: string, from: nat)
    requires at < |t|
  {
    Scan(t, at, Code, stack, start) == found + Scan(t, Lex(t, at, Code).next, Code, open, from)
  }

  /** The rest of the loop body, for a character of code: the stack, and whether a root ends here. */
  method Bracket(t: string, at: nat, stack: string, start: nat) returns (open: string, from: nat, found: bool)
    requires at < |t| && (stack != "" ==> start < at)
    requires Lex(t, at, Code).mode == Code
    requires Lex(t, at, Code).bracket != "" <==> IsOpen(t[at]) || IsClose(t[at])
    ensures Splits(t, at, stack, start, Ended(found, start, at), open, from)
    ensures (open != "" ==> from <= at) && (found ==> start < at && open == "" && from == start)
  {
    var c := t[at];
    open, from, found := stack, start, false;
    if IsOpen(c) {
      if stack == "" { from := at; }
      open := stack + [c];
      return;
    }
    if !IsClose(c) || stack == "" { return; }
    if !Matching(stack[|stack| - 1], c) {
      open := "";
      return;
    }
    open := stack[..|stack| - 1];
    found := open == "";
  }

  lemma TextsSnoc(t: string, spans: seq<Span>, s: Span)
    ensures Texts(t, spans + [s]) == Texts(t, spans) + [TextOf(t, s)]
  {
    var all := spans + [s];
    assert all[..|all| - 1] == spans && all[|all| - 1] == s;
  }

  /** The roots of the whole text are those found so far and those still to come. */
  ghost predicate Reached(t: string, spans: seq<Span>, i: nat, mode: Mode, stack: string, start: nat) {
    i <= |t| && Scan(t, 0, Code, "", 0) == spans + Scan(t, i, mode, stack, start)
  }

  lemma Skipped(t: string, spans: seq<Span>, i: nat, mode: Mode, stack: string, start: nat)
    requires i < |t| && Reached(t, spans, i, mode, stack, start) && Lex(t, i, mode).bracket == ""
    ensures Reached(t, spans, Lex(t, i, mode).next, Lex(t, i, mode).mode, stack, start)
  {
  }

  lemma Advanced(t: string, spans: seq<Span>, i: nat, stack: string, start: nat, found: seq<Span>, open: string, from: nat)
    requires i < |t| && Reached(t, spans, i, Code, stack, start) && Splits(t, i, stack, start, found, open, from)
    ensures Reached(t, spans + found, Lex(t, i, Code).next, Code, open, from)
  {
    Sequences.Regroup(spans, found, Scan(t, Lex(t, i, Code).next, Code, open, from));
  }

  lemma FirstRoots(t: string, spans: seq<Span>, i: nat, mode: Mode, stack: string, start: nat)
    requires Reached(t, spans, i, mode, stack, start)
    requires |spans| == MAX_JSON_ROOTS || (|spans| < MAX_JSON_ROOTS && i == |t|)
    ensures spans == Roots(t)
  {
    assert i == |t| ==> Scan(t, i, mode, stack, start) == [];
  }

  /** The loop body up to what it does with a root found. */
  method Turn(t: string, at: nat, quote: string, escaped: bool, lineComment: bool, blockComment: bool,
              stack: string, start: nat, ghost spans: seq<Span>)
    returns (found: bool, next: nat, q: string, e: bool, l: bool, b: bool, open: string, from: nat)
    requires at < |t| && OneState(quote, escaped, lineComment, blockComment) && (stack != "" ==> start < at)
    requires Reached(t, spans, at, ModeOf(quote, escaped, lineComment, blockComment), stack, start)
    ensures at < next <= |t| && OneState(q, e, l, b) && (open != "" ==> from < next) && (found ==> from < at)
    ensures Reached(t, spans + Ended(found, from, at), next, ModeOf(q, e, l, b), open, from)
  {
    var code;
    code, next, q, e, l, b := Skip(t, at, quote, escaped, lineComment, blockComment);
    open, from, found := stack, start, false;
    if code {
      open, from, found := Bracket(t, at, stack, start);
      Advanced(t, spans, at, stack, start, Ended(found, from, at), open, from);
    } else {
      Skipped(t, spans, at, ModeOf(quote, escaped, lineComment, blockComment), stack, start);
      assert spans + [] == spans;
    }
  }

  /** `extractJsonRoots`: the texts of the roots found, at most the first 64. */
  method ExtractJsonRoots(t: string) returns (roots: seq<string>)
    ensures roots == Texts(t, Roots(t))
  {
    roots := [];
    ghost var spans: seq<Span> := [];
    var stack: string, start: nat := "", 0;
    var quote := "";
    var escaped, lineComment, blockComment := false, false, false;
    var i: nat := 0;
    while i < |t|
      invariant 0 <= i <= |t| && |roots| == |spans| < MAX_JSON_ROOTS
      invariant roots == Texts(t, spans) && (stack != "" ==> start < i)
      invariant OneState(quote, escaped, lineComment, blockComment)
      invariant Reached(t, spans, i, ModeOf(quote, escaped, lineComment, blockComment), stack, start)
      decreases |t| - i
    {
      var at := i;
      var found;
      found, i, quote, escaped, lineComment, blockComment, stack, start :=
        Turn(t, i, quote, escaped, lineComment, blockComment, stack, start, spans);
      if found {
        TextsSnoc(t, spans, Span(start, at));
        roots := roots + [t[start..at + 1]];
        spans := spans + [Span(start, at)];
        if |roots| >= MAX_JSON_ROOTS {
          FirstRoots(t, spans, i, ModeOf(quote, escaped, lineComment, blockComment), stack, start);
          return;
        }
      } else {
        assert spans + [] == spans;
      }
    }
    FirstRoots(t, spans, i, ModeOf(quote, escaped, lineComment, blockComment), stack, start);
  }
}
