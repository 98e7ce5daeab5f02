/**
 * Script text as a page writes it, and what is found in it: bracketed groups between strings, comments
 * and plain code, JSON values among them (fluxDown/utils/dash-manifest.ts, `extractJsonRoots`).
 */
module JsonScripts {
  import opened JsonRoots
  import opened Sequences

  // ----- Scripts -----

  /** A character of a string: as it is, or behind a backslash. */
  datatype Piece = Raw(c: char) | Escaped(c: char)

  /** What holds no root: plain code, a string, a comment up to the end of its line, a block comment. */
  datatype Filler =
    | Plain(text: string)
    | Quoted(quote: char, pieces: seq<Piece>)
    | Line(text: string, end: char)
    | Block(text: string)

  datatype Node = Skip(filler: Filler) | Group(open: char, body: seq<Node>)

  /** Plain code has no quotes, brackets or slashes. */
  predicate IsPlain(text: string) {
    forall c :: c in text ==> c !in "\"'`{}[]/"
  }

  predicate WellPieces(pieces: seq<Piece>, quote: char) {
    pieces == [] || ((pieces[0].Raw? ==> pieces[0].c != quote && pieces[0].c != '\\') && WellPieces(pieces[1..], quote))
  }

  predicate IsNewline(c: char) {
    c == '\n' || c == '\r'
  }

  predicate WellFiller(f: Filler) {
    match f
    case Plain(text) => IsPlain(text)
    case Quoted(quote, pieces) => quote in "\"'`" && WellPieces(pieces, quote)
    case Line(text, end) => IsNewline(end) && forall c :: c in text ==> !IsNewline(c)
    case Block(text) => forall k :: 0 <= k < |text| - 1 ==> !(text[k] == '*' && text[k + 1] == '/')
  }

  predicate WellNodes(nodes: seq<Node>)
    decreases nodes
  {
    nodes == [] || (WellNode(nodes[0]) && WellNodes(nodes[1..]))
  }

  predicate WellNode(n: Node)
    decreases n
  {
    match n
    case Skip(f) => WellFiller(f)
    case Group(open, body) => open in "{[" && WellNodes(body)
  }

  function PieceText(p: Piece): string {
    match p case Raw(c) => [c] case Escaped(c) => ['\\', c]
  }

  function PiecesText(pieces: seq<Piece>): string {
    if pieces == [] then "" else PieceText(pieces[0]) + PiecesText(pieces[1..])
  }

  function FillerText(f: Filler): string {
    match f
    case Plain(text) => text
    case Quoted(quote, pieces) => [quote] + (PiecesText(pieces) + [quote])
    case Line(text, end) => "//" + (text + [end])
    case Block(text) => "/*" + (text + "*/")
  }

  function NodeText(n: Node): string
    decreases n
  {
    match n
    case Skip(f) => FillerText(f)
    case Group(open, body) => [open] + (NodesText(body) + [if open == '{' then '}' else ']'])
  }

  function NodesText(nodes: seq<Node>): string
    decreases nodes
  {
    if nodes == [] then "" else NodeText(nodes[0]) + NodesText(nodes[1..])
  }

  // ----- Scanning them -----

  /** The text has `w` at `i`. */
  predicate At(t: string, i: nat, w: string) {
    i + |w| <= |t| && t[i..i + |w|] == w
  }

  lemma AtSplit(t: string, i: nat, u: string, v: string)
    requires At(t, i, u + v)
    ensures At(t, i, u) && At(t, i + |u|, v)
  {
    var w := t[i..i + |u + v|];
    assert w[..|u|] == u && w[|u|..] == v;
    assert t[i..i + |u|] == w[..|u|] && t[i + |u|..i + |u| + |v|] == w[|u|..];
  }

  lemma AtChar(t: string, i: nat, c: char, w: string)
    requires At(t, i, [c] + w)
    ensures i < |t| && t[i] == c && At(t, i + 1, w)
  {
    AtSplit(t, i, [c], w);
    assert t[i..i + 1][0] == c;
  }

  lemma AtHead(t: string, i: nat, w: string)
    requires w != "" && At(t, i, w)
    ensures i < |t| && t[i] == w[0] && At(t, i + 1, w[1..])
  {
    assert w == [w[0]] + w[1..];
    AtChar(t, i, w[0], w[1..]);
  }

  /** Between `i` and `j` the scanner finds nothing and ends up as it was, in code. */
  ghost predicate Silent(t: string, i: nat, mode: Mode, j: nat, stack: string, start: nat) {
    i <= |t| && j <= |t| && Scan(t, i, mode, stack, start) == Scan(t, j, Code, stack, start)
  }

  lemma {:induction false} PlainSilent(t: string, i: nat, w: string, stack: string, start: nat)
    requires At(t, i, w) && IsPlain(w)
    ensures Silent(t, i, Code, i + |w|, stack, start)
    decreases |w|
  {
    if w != "" {
      AtHead(t, i, w);
      assert w[0] in w;
      assert forall c :: c in w[1..] ==> c in w;
      PlainSilent(t, i + 1, w[1..], stack, start);
    }
  }

  /** The pieces stand from `i` on, and the closing quote behind them. */
  predicate Shut(t: string, i: nat, quote: char, pieces: seq<Piece>)
    decreases |pieces|
  {
    if pieces == [] then i < |t| && t[i] == quote
    else At(t, i, PieceText(pieces[0])) && Shut(t, i + |PieceText(pieces[0])|, quote, pieces[1..])
  }

  /** Just behind the closing quote. */
  function Outside(i: nat, pieces: seq<Piece>): nat
    decreases |pieces|
  {
    if pieces == [] then i + 1 else Outside(i + |PieceText(pieces[0])|, pieces[1..])
  }

  lemma {:induction false} ShutOut(t: string, i: nat, quote: char, pieces: seq<Piece>)
    requires At(t, i, PiecesText(pieces) + [quote])
    ensures Shut(t, i, quote, pieces) && Outside(i, pieces) == i + |PiecesText(pieces)| + 1
    decreases |pieces|
  {
    if pieces == [] {
      assert PiecesText(pieces) + [quote] == [quote] + "";
      AtChar(t, i, quote, "");
    } else {
      Sequences.Regroup(PieceText(pieces[0]), PiecesText(pieces[1..]), [quote]);
      AtSplit(t, i, PieceText(pieces[0]), PiecesText(pieces[1..]) + [quote]);
      ShutOut(t, i + |PieceText(pieces[0])|, quote, pieces[1..]);
    }
  }

  lemma {:induction false} PiecesSilent(t: string, i: nat, quote: char, pieces: seq<Piece>, stack: string, start: nat)
    requires Shut(t, i, quote, pieces) && WellPieces(pieces, quote) && IsQuote(quote)
    ensures Silent(t, i, JsonRoots.Quote(quote, false), Outside(i, pieces), stack, start)
    decreases |pieces|
  {
    if pieces != [] {
      PieceSilent(t, i, quote, pieces[0], stack, start);
      PiecesSilent(t, i + |PieceText(pieces[0])|, quote, pieces[1..], stack, start);
    }
  }

  /** One piece of a string, the character behind a backslash with it. */
  lemma PieceSilent(t: string, i: nat, quote: char, p: Piece, stack: string, start: nat)
    requires At(t, i, PieceText(p)) && (p.Raw? ==> p.c != quote && p.c != '\\')
    ensures Scan(t, i, JsonRoots.Quote(quote, false), stack, start) ==
            Scan(t, i + |PieceText(p)|, JsonRoots.Quote(quote, false), stack, start)
  {
    match p
    case Raw(c) =>
      assert [c] + "" == [c];
      AtChar(t, i, c, "");
    case Escaped(c) =>
      assert ['\\', c] == ['\\'] + [c];
      AtChar(t, i, '\\', [c]);
      EscapedSilent(t, i, quote, stack, start);
  }

  /** A backslash takes the next character with it. */
  lemma EscapedSilent(t: string, i: nat, quote: char, stack: string, start: nat)
    requires i + 1 < |t| && t[i] == '\\'
    ensures Scan(t, i, JsonRoots.Quote(quote, false), stack, start) == Scan(t, i + 2, JsonRoots.Quote(quote, false), stack, start)
  {
    assert Lex(t, i, JsonRoots.Quote(quote, false)) == Lexed(JsonRoots.Quote(quote, true), i + 1, "");
    assert Lex(t, i + 1, JsonRoots.Quote(quote, true)) == Lexed(JsonRoots.Quote(quote, false), i + 2, "");
  }

  lemma {:induction false} LineSilent(t: string, i: nat, w: string, end: char, stack: string, start: nat)
    requires At(t, i, w + [end]) && IsNewline(end) && forall c :: c in w ==> !IsNewline(c)
    ensures Silent(t, i, LineComment, i + |w| + 1, stack, start)
    decreases |w|
  {
    if w == "" {
      assert w + [end] == [end] + "";
      AtChar(t, i, end, "");
    } else {
      assert w + [end] == [w[0]] + (w[1..] + [end]);
      assert w[0] in w && forall c :: c in w[1..] ==> c in w;
      AtChar(t, i, w[0], w[1..] + [end]);
      LineSilent(t, i + 1, w[1..], end, stack, start);
    }
  }

  lemma {:induction false} BlockSilent(t: string, i: nat, w: string, stack: string, start: nat)
    requires At(t, i, w + "*/") && forall k :: 0 <= k < |w| - 1 ==> !(w[k] == '*' && w[k + 1] == '/')
    ensures Silent(t, i, BlockComment, i + |w| + 2, stack, start)
    decreases |w|
  {
    if w == "" {
      assert w + "*/" == ['*'] + "/" && "/" == ['/'] + "";
      AtChar(t, i, '*', "/");
      AtChar(t, i + 1, '/', "");
    } else {
      var rest := w[1..] + "*/";
      assert w + "*/" == [w[0]] + rest;
      AtChar(t, i, w[0], rest);
      AtHead(t, i + 1, rest);
      assert !(w[0] == '*' && rest[0] == '/');
      BlockSilent(t, i + 1, w[1..], stack, start);
    }
  }

  lemma StringBegins(t: string, i: nat, quote: char, stack: string, start: nat)
    requires i < |t| && t[i] == quote && IsQuote(quote)
    ensures Scan(t, i, Code, stack, start) == Scan(t, i + 1, JsonRoots.Quote(quote, false), stack, start)
  {
    assert Lex(t, i, Code) == Lexed(JsonRoots.Quote(quote, false), i + 1, "");
  }

  /** A string is its quote, its pieces and the quote again. */
  lemma StringLaid(t: string, i: nat, quote: char, pieces: seq<Piece>)
    requires At(t, i, [quote] + (PiecesText(pieces) + [quote]))
    ensures i < |t| && t[i] == quote && Shut(t, i + 1, quote, pieces)
    ensures Outside(i + 1, pieces) == i + |[quote] + (PiecesText(pieces) + [quote])|
  {
    AtChar(t, i, quote, PiecesText(pieces) + [quote]);
    ShutOut(t, i + 1, quote, pieces);
  }

  lemma StringSilent(t: string, i: nat, quote: char, pieces: seq<Piece>, stack: string, start: nat)
    requires i < |t| && t[i] == quote && Shut(t, i + 1, quote, pieces) && IsQuote(quote) && WellPieces(pieces, quote)
    ensures Silent(t, i, Code, Outside(i + 1, pieces), stack, start)
  {
    StringBegins(t, i, quote, stack, start);
    PiecesSilent(t, i + 1, quote, pieces, stack, start);
  }

  /** Two slashes begin a line comment, a slash and a star a block comment. */
  lemma CommentBegins(t: string, i: nat, second: char, rest: string, stack: string, start: nat)
    requires At(t, i, ['/', second] + rest) && (second == '/' || second == '*')
    ensures At(t, i + 2, rest)
    ensures Scan(t, i, Code, stack, start) == Scan(t, i + 2, if second == '/' then LineComment else BlockComment, stack, start)
  {
    assert ['/', second] + rest == ['/'] + ([second] + rest);
    AtChar(t, i, '/', [second] + rest);
    AtChar(t, i + 1, second, rest);
    assert Pair(t, i, '/', second);
  }

  lemma LineFiller(t: string, i: nat, f: Filler, stack: string, start: nat)
    requires f.Line? && At(t, i, FillerText(f)) && WellFiller(f)
    ensures Silent(t, i, Code, i + |FillerText(f)|, stack, start)
  {
    CommentBegins(t, i, '/', f.text + [f.end], stack, start);
    LineSilent(t, i + 2, f.text, f.end, stack, start);
  }

  lemma BlockFiller(t: string, i: nat, f: Filler, stack: string, start: nat)
    requires f.Block? && At(t, i, FillerText(f)) && WellFiller(f)
    ensures Silent(t, i, Code, i + |FillerText(f)|, stack, start)
  {
    CommentBegins(t, i, '*', f.text + "*/", stack, start);
    BlockSilent(t, i + 2, f.text, stack, start);
  }

  lemma FillerSilent(t: string, i: nat, f: Filler, stack: string, start: nat)
    requires At(t, i, FillerText(f)) && WellFiller(f)
    ensures Silent(t, i, Code, i + |FillerText(f)|, stack, start)
  {
    match f
    case Plain(text) =>
      PlainSilent(t, i, text, stack, start);
    case Quoted(quote, pieces) =>
      StringLaid(t, i, quote, pieces);
      StringSilent(t, i, quote, pieces, stack, start);
    case Line(_, _) =>
      LineFiller(t, i, f, stack, start);
    case Block(_) =>
      BlockFiller(t, i, f, stack, start);
  }

  /** The nodes stand one behind the other from `i` on. */
  predicate Laid(t: string, i: nat, nodes: seq<Node>)
    decreases nodes
  {
    if nodes == [] then i <= |t|
    else At(t, i, NodeText(nodes[0])) && Laid(t, Behind(nodes[0], i), nodes[1..])
  }

  function Behind(n: Node, i: nat): nat {
    i + |NodeText(n)|
  }

  /** Where nodes end that begin at `i`. */
  function End(nodes: seq<Node>, i: nat): nat
    decreases nodes
  {
    if nodes == [] then i else End(nodes[1..], Behind(nodes[0], i))
  }

  lemma {:induction false} LaidOut(t: string, i: nat, nodes: seq<Node>)
    requires At(t, i, NodesText(nodes))
    ensures Laid(t, i, nodes) && End(nodes, i) == i + |NodesText(nodes)|
    decreases nodes
  {
    if nodes != [] {
      AtSplit(t, i, NodeText(nodes[0]), NodesText(nodes[1..]));
      LaidOut(t, Behind(nodes[0], i), nodes[1..]);
    }
  }

  /** A group is its bracket, its body and the closing bracket. */
  lemma GroupLaid(t: string, i: nat, open: char, body: seq<Node>) returns (j: nat)
    requires At(t, i, NodeText(Group(open, body)))
    ensures i < |t| && t[i] == open && Laid(t, i + 1, body)
    ensures j == End(body, i + 1) && i < j < |t| && t[j] == CloserOf(open) && Behind(Group(open, body), i) == j + 1
  {
    AtChar(t, i, open, NodesText(body) + [CloserOf(open)]);
    AtSplit(t, i + 1, NodesText(body), [CloserOf(open)]);
    LaidOut(t, i + 1, body);
    j := i + 1 + |NodesText(body)|;
    assert t[j..j + 1][0] == t[j];
  }

  // ----- Groups inside groups -----

  /** An opening bracket inside an open group. */
  lemma OpenInside(t: string, i: nat, open: char, stack: string, start: nat)
    requires i < |t| && t[i] == open && IsOpen(open) && stack != ""
    ensures Scan(t, i, Code, stack, start) == Scan(t, i + 1, Code, stack + [open], start)
  {
    assert Lex(t, i, Code) == Lexed(Code, i + 1, [open]);
  }

  /** The closing bracket of a group inside another. */
  lemma CloseInside(t: string, i: nat, open: char, stack: string, start: nat)
    requires i < |t| && t[i] == CloserOf(open) && IsOpen(open) && stack != ""
    ensures Scan(t, i, Code, stack + [open], start) == Scan(t, i + 1, Code, stack, start)
  {
    var all := stack + [open];
    assert Lex(t, i, Code) == Lexed(Code, i + 1, [t[i]]);
    assert TopMatches(all, t[i]) && all[..|all| - 1] == stack;
  }

  lemma {:induction false} NodeSilent(t: string, i: nat, n: Node, stack: string, start: nat)
    requires At(t, i, NodeText(n)) && WellNode(n) && stack != ""
    ensures Silent(t, i, Code, Behind(n, i), stack, start)
    decreases n, 0
  {
    match n
    case Skip(f) => FillerSilent(t, i, f, stack, start);
    case Group(open, body) =>
      var j := GroupLaid(t, i, open, body);
      OpenInside(t, i, open, stack, start);
      NodesSilent(t, i + 1, body, stack + [open], start);
      CloseInside(t, j, open, stack, start);
  }

  lemma SilentTwice(t: string, i: nat, j: nat, k: nat, stack: string, start: nat)
    requires Silent(t, i, Code, j, stack, start) && Silent(t, j, Code, k, stack, start)
    ensures Silent(t, i, Code, k, stack, start)
  {
  }

  lemma {:induction false} NodesSilent(t: string, i: nat, nodes: seq<Node>, stack: string, start: nat)
    requires Laid(t, i, nodes) && WellNodes(nodes) && stack != ""
    ensures Silent(t, i, Code, End(nodes, i), stack, start)
    decreases nodes
  {
    if nodes != [] {
      var j := Behind(nodes[0], i);
      NodeSilent(t, i, nodes[0], stack, start);
      NodesSilent(t, j, nodes[1..], stack, start);
      SilentTwice(t, i, j, End(nodes, i), stack, start);
    }
  }

  // ----- Roots -----

  /** With nothing open it does not matter where the last root began. */
  lemma {:induction false} StartIrrelevant(t: string, i: nat, mode: Mode, a: nat, b: nat)
    requires i <= |t|
    ensures Scan(t, i, mode, "", a) == Scan(t, i, mode, "", b)
    decreases |t| - i
  {
    if i < |t| {
      var l := Lex(t, i, mode);
      if l.bracket == "" {
        StartIrrelevant(t, l.next, l.mode, a, b);
      } else if !IsOpen(t[i]) {
        StartIrrelevant(t, l.next, Code, a, b);
      }
    }
  }

  lemma OpenRoot(t: string, i: nat, open: char, start: nat)
    requires i < |t| && t[i] == open && IsOpen(open)
    ensures Scan(t, i, Code, "", start) == Scan(t, i + 1, Code, [open], i)
  {
    assert Lex(t, i, Code) == Lexed(Code, i + 1, [open]);
    assert "" + [t[i]] == [open];
  }

  lemma CloseRoot(t: string, i: nat, open: char, start: nat)
    requires start < i < |t| && t[i] == CloserOf(open) && IsOpen(open)
    ensures Scan(t, i, Code, [open], start) == [Span(start, i)] + Scan(t, i + 1, Code, "", start)
  {
    assert Lex(t, i, Code) == Lexed(Code, i + 1, [t[i]]);
    assert TopMatches([open], t[i]);
  }

  /** The root that a node at `i` is, if it is one. */
  function SpanOf(n: Node, i: nat): seq<Span> {
    if n.Group? then [Span(i, Behind(n, i) - 1)] else []
  }

  /** Where the groups of a script stand that begins at `i`. */
  function Spans(nodes: seq<Node>, i: nat): seq<Span> {
    if nodes == [] then [] else SpanOf(nodes[0], i) + Spans(nodes[1..], Behind(nodes[0], i))
  }

  /** From `i` on these roots are found, and then those from `j` on. */
  ghost predicate Gives(t: string, i: nat, spans: seq<Span>, j: nat) {
    i <= |t| && j <= |t| && Scan(t, i, Code, "", 0) == spans + Scan(t, j, Code, "", 0)
  }

  /** From its bracket to its closing bracket nothing is found. */
  lemma RootBody(t: string, i: nat, open: char, body: seq<Node>)
    requires i < |t| && t[i] == open && IsOpen(open) && Laid(t, i + 1, body) && WellNodes(body)
    ensures End(body, i + 1) <= |t| && Scan(t, i, Code, "", 0) == Scan(t, End(body, i + 1), Code, [open], i)
  {
    OpenRoot(t, i, open, 0);
    NodesSilent(t, i + 1, body, [open], i);
  }

  /** A group on its own is a root. */
  lemma GroupIsRoot(t: string, i: nat, open: char, body: seq<Node>, j: nat)
    requires i < |t| && t[i] == open && IsOpen(open) && Laid(t, i + 1, body) && WellNodes(body)
    requires j == End(body, i + 1) && i < j < |t| && t[j] == CloserOf(open)
    ensures Gives(t, i, [Span(i, j)], j + 1)
  {
    RootBody(t, i, open, body);
    CloseRoot(t, j, open, i);
    StartIrrelevant(t, j + 1, Code, i, 0);
  }

  lemma GivesTwice(t: string, i: nat, a: seq<Span>, j: nat, b: seq<Span>, k: nat)
    requires Gives(t, i, a, j) && Gives(t, j, b, k)
    ensures Gives(t, i, a + b, k)
  {
    Sequences.Regroup(a, b, Scan(t, k, Code, "", 0));
  }

  lemma GivesNothing(t: string, i: nat)
    requires i <= |t|
    ensures Gives(t, i, [], i)
  {
    assert [] + Scan(t, i, Code, "", 0) == Scan(t, i, Code, "", 0);
  }

  lemma NodeScanned(t: string, i: nat, n: Node)
    requires At(t, i, NodeText(n)) && WellNode(n)
    ensures Gives(t, i, SpanOf(n, i), Behind(n, i))
  {
    match n
    case Skip(f) =>
      FillerSilent(t, i, f, "", 0);
    case Group(open, body) =>
      var j := GroupLaid(t, i, open, body);
      GroupIsRoot(t, i, open, body, j);
  }

  /** The groups of a script, as written. */
  function GroupOf(n: Node): seq<string> {
    if n.Group? then [NodeText(n)] else []
  }

  function Groups(nodes: seq<Node>): seq<string> {
    if nodes == [] then [] else GroupOf(nodes[0]) + Groups(nodes[1..])
  }

  lemma {:induction false} ScriptScanned(t: string, i: nat, nodes: seq<Node>)
    requires Laid(t, i, nodes) && WellNodes(nodes)
    ensures Gives(t, i, Spans(nodes, i), End(nodes, i))
    decreases nodes
  {
    if nodes == [] {
      GivesNothing(t, i);
    } else {
      var j := Behind(nodes[0], i);
      NodeScanned(t, i, nodes[0]);
      ScriptScanned(t, j, nodes[1..]);
      GivesTwice(t, i, SpanOf(nodes[0], i), j, Spans(nodes[1..], j), End(nodes, i));
    }
  }

  /** Texts are collected from the back; here one more in front. */
  lemma {:induction false} TextsFront(t: string, s: Span, spans: seq<Span>)
    ensures Texts(t, [s] + spans) == [TextOf(t, s)] + Texts(t, spans)
    decreases |spans|
  {
    var n := |spans| - 1;
    if spans == [] {
      assert [s] + spans == [s] && [s][..0] == [];
    } else {
      assert ([s] + spans)[..n + 1] == [s] + spans[..n];
      TextsFront(t, s, spans[..n]);
      Sequences.Regroup([TextOf(t, s)], Texts(t, spans[..n]), [TextOf(t, spans[n])]);
    }
  }

  lemma {:induction false} TextsPrefix(t: string, spans: seq<Span>, n: nat)
    requires n <= |spans|
    ensures |Texts(t, spans)| == |spans| && Texts(t, spans[..n]) == Texts(t, spans)[..n]
    decreases |spans|
  {
    if n == |spans| {
      assert spans[..n] == spans;
      if n > 0 { TextsPrefix(t, spans[..n - 1], n - 1); }
    } else {
      TextsPrefix(t, spans[..|spans| - 1], n);
      assert spans[..|spans| - 1][..n] == spans[..n];
    }
  }

  lemma GroupFront(t: string, i: nat, n: Node, spans: seq<Span>, rest: seq<string>)
    requires At(t, i, NodeText(n)) && Texts(t, spans) == rest
    ensures Texts(t, SpanOf(n, i) + spans) == GroupOf(n) + rest
  {
    if n.Group? {
      TextsFront(t, Span(i, Behind(n, i) - 1), spans);
      assert TextOf(t, Span(i, Behind(n, i) - 1)) == t[i..Behind(n, i)];
    } else {
      assert SpanOf(n, i) + spans == spans;
    }
  }

  lemma {:induction false} SpansAreGroups(t: string, i: nat, nodes: seq<Node>)
    requires Laid(t, i, nodes)
    ensures Texts(t, Spans(nodes, i)) == Groups(nodes)
    decreases nodes
  {
    if nodes != [] {
      var j := Behind(nodes[0], i);
      SpansAreGroups(t, j, nodes[1..]);
      GroupFront(t, i, nodes[0], Spans(nodes[1..], j), Groups(nodes[1..]));
    }
  }

  function FirstMany(roots: seq<string>): seq<string> {
    if |roots| > 64 then roots[..64] else roots
  }

  /** What is found in a script is exactly its groups, as written and in order, up to 64. */
  lemma ScriptRoots(nodes: seq<Node>)
    requires WellNodes(nodes)
    ensures var t := NodesText(nodes); Texts(t, Roots(t)) == FirstMany(Groups(nodes))
  {
    var t := NodesText(nodes);
    assert t[0..|t|] == t;
    LaidOut(t, 0, nodes);
    ScriptScanned(t, 0, nodes);
    assert Scan(t, |t|, Code, "", 0) == [];
    var all := Scan(t, 0, Code, "", 0);
    assert all == Spans(nodes, 0);
    SpansAreGroups(t, 0, nodes);
    TextsPrefix(t, all, if |all| > MAX_JSON_ROOTS then MAX_JSON_ROOTS else |all|);
  }

  /** Read back by the scanner itself. */
  method ReadScript(nodes: seq<Node>) returns (roots: seq<string>)
    requires WellNodes(nodes)
    ensures roots == FirstMany(Groups(nodes))
  {
    ScriptRoots(nodes);
    roots := ExtractJsonRoots(NodesText(nodes));
  }
}
