/**
 * Patterns as they are written, and what the parser of the regex checker reads them as
 * (fluxDown/rules/regex-safety.ts).
 */
module RegexWriting {
  import opened Numerals
  import opened Options
  import opened RegexParser
  import opened RegexSafety
  import opened Sequences

  // ----- Patterns as written -----

  datatype Quant = Once | Star | Plus | Opt | Times(n: nat) | AtLeast(n: nat) | Between(lo: nat, hi: nat)

  /** A character as written: itself, behind a backslash, or by its code. */
  datatype Written = Raw(c: char) | Quoted(c: char) | Control(c: char) | Hex(digits: string) | ControlLetter(c: char)

  datatype Member = Single(w: Written) | Span(lo: Written, hi: Written) | CategoryIn(c: char)

  datatype Kind = Capturing | NonCapturing | Named(name: string)

  datatype Atom =
    | Letter(w: Written)
    | Dot
    | Edge(c: char)
    | Boundary(c: char)
    | Category(c: char)
    | Class(negated: bool, members: seq<Member>)
    | Grouped(kind: Kind, alts: seq<Alt>)

  datatype Piece = Piece(atom: Atom, quant: Quant, idle: bool)

  datatype Alt = Alt(pieces: seq<Piece>)

  const SPECIAL := "\\^$.*+?()[]{}|"

  predicate IsAlphanumeric(c: char) {
    IsLetter(c) || '0' <= c <= '9'
  }

  /** Quoting stays clear of letters and digits, which have meanings of their own; `\b` is a character in classes only. */
  predicate WellWritten(w: Written, inClass: bool) {
    match w
    case Raw(c) => if inClass then c !in "]\\^-" else c !in SPECIAL
    case Quoted(c) => !IsAlphanumeric(c)
    case Control(c) => ControlCode(c).Some? || (inClass && c == 'b')
    case Hex(digits) => (|digits| == 2 || |digits| == 4) && forall i :: 0 <= i < |digits| ==> IsHex(digits[i])
    case ControlLetter(c) => IsLetter(c)
  }

  predicate WellMember(m: Member) {
    match m
    case Single(w) => WellWritten(w, true)
    case Span(lo, hi) => WellWritten(lo, true) && WellWritten(hi, true)
    case CategoryIn(c) => IsCategory(c)
  }

  predicate WellAtom(a: Atom)
    decreases a
  {
    match a
    case Letter(w) => WellWritten(w, false)
    case Dot => true
    case Edge(c) => c == '^' || c == '$'
    case Boundary(c) => c == 'b' || c == 'B'
    case Category(c) => IsCategory(c)
    case Class(_, members) => forall i :: 0 <= i < |members| ==> WellMember(members[i])
    case Grouped(kind, alts) =>
      WellKind(kind) && alts != [] && WellAlts(alts)
  }

  predicate WellPieces(pieces: seq<Piece>)
    decreases pieces
  {
    pieces == [] || (WellPiece(pieces[0]) && WellPieces(pieces[1..]))
  }

  predicate WellPiece(p: Piece)
    decreases p
  {
    match p
    case Piece(atom, quant, idle) => WellAtom(atom) && (quant.Once? ==> !idle)
  }

  predicate WellAlts(alts: seq<Alt>)
    decreases alts
  {
    alts == [] || ((match alts[0] case Alt(pieces) => WellPieces(pieces)) && WellAlts(alts[1..]))
  }

  // ----- Writing -----

  /** Bounds as written behind the opening brace. */
  function WriteBounds(q: Quant): string {
    match q
    case Times(n) => DecimalText(n) + "}"
    case AtLeast(n) => DecimalText(n) + ",}"
    case Between(lo, hi) => DecimalText(lo) + ("," + (DecimalText(hi) + "}"))
    case _ => ""
  }

  function WriteQuant(q: Quant, idle: bool): string {
    (match q
     case Once => ""
     case Star => "*"
     case Plus => "+"
     case Opt => "?"
     case _ => "{" + WriteBounds(q)) + (if idle then "?" else "")
  }

  /** What stands behind the backslash. */
  function EscapeText(w: Written): string
    requires !w.Raw?
  {
    match w
    case Hex(digits) => [if |digits| == 2 then 'x' else 'u'] + digits
    case ControlLetter(c) => ['c', c]
    case Quoted(c) => [c]
    case Control(c) => [c]
    case Raw(c) => [c]
  }

  function WriteChar(w: Written): string {
    if w.Raw? then [w.c] else ['\\'] + EscapeText(w)
  }

  function WriteMember(m: Member): string {
    match m
    case Single(w) => WriteChar(w)
    case Span(lo, hi) => WriteChar(lo) + "-" + WriteChar(hi)
    case CategoryIn(c) => ['\\', c]
  }

  function WriteMembers(members: seq<Member>): string {
    if members == [] then "" else WriteMember(members[0]) + WriteMembers(members[1..])
  }

  function WriteKind(kind: Kind): string {
    match kind
    case Capturing => ""
    case NonCapturing => "?:"
    case Named(name) => "?<" + name + ">"
  }

  function WriteAtom(a: Atom): string
    decreases a
  {
    match a
    case Letter(w) => WriteChar(w)
    case Dot => "."
    case Edge(c) => [c]
    case Boundary(c) => ['\\', c]
    case Category(c) => ['\\', c]
    case Class(negated, members) => "[" + ((if negated then "^" else "") + (WriteMembers(members) + "]"))
    case Grouped(kind, alts) => "(" + (WriteKind(kind) + (WriteAlts(alts) + ")"))
  }

  function WritePieces(pieces: seq<Piece>): string
    decreases pieces
  {
    if pieces == [] then ""
    else WritePiece(pieces[0]) + WritePieces(pieces[1..])
  }

  function WritePiece(p: Piece): string
    decreases p
  {
    match p
    case Piece(atom, quant, idle) => WriteAtom(atom) + WriteQuant(quant, idle)
  }

  function WriteAlts(alts: seq<Alt>): string
    decreases alts
  {
    if alts == [] then ""
    else
      (match alts[0] case Alt(pieces) => WritePieces(pieces)) +
      (if |alts| == 1 then "" else "|" + WriteAlts(alts[1..]))
  }

  // ----- Meaning -----

  function QuantMin(q: Quant): nat {
    match q
    case Once => 1
    case Star => 0
    case Plus => 1
    case Opt => 0
    case Times(n) => n
    case AtLeast(n) => n
    case Between(lo, _) => lo
  }

  /** Upper bounds beyond the limit are taken as unbounded. */
  function QuantMax(q: Quant): Max {
    match q
    case Once => Finite(1)
    case Star => Infinite
    case Plus => Infinite
    case Opt => Finite(1)
    case Times(n) => if n > BOUNDED_MAX then Infinite else Finite(n)
    case AtLeast(_) => Infinite
    case Between(_, hi) => if hi > BOUNDED_MAX then Infinite else Finite(hi)
  }

  function CodeOf(w: Written): nat {
    match w
    case Raw(c) => c as int
    case Quoted(c) => c as int
    case Control(c) => if ControlCode(c).Some? then ControlCode(c).value else 8
    case Hex(digits) => HexOf(digits)
    case ControlLetter(c) => c as int % 32
  }

  function MemberSet(m: Member): CharSet
    requires WellMember(m)
  {
    match m
    case Single(w) => One(CodeOf(w))
    case Span(lo, hi) => Range(Low(CodeOf(lo), CodeOf(hi)), High(CodeOf(lo), CodeOf(hi)))
    case CategoryIn(c) => CategorySet(c)
  }

  function MembersSet(members: seq<Member>): CharSet
    requires forall i :: 0 <= i < |members| ==> WellMember(members[i])
  {
    if members == [] then EmptySet() else Union(MemberSet(members[0]), MembersSet(members[1..]))
  }

  function NodeOf(a: Atom, lower: nat -> char): Node
    requires WellAtom(a)
    decreases a
  {
    match a
    case Letter(w) => LiteralNode(CodeOf(w), lower)
    case Dot => Chars(DotSet(), NoLiteral)
    case Edge(_) => Zero
    case Boundary(_) => Zero
    case Category(c) => Chars(CategorySet(c), NoLiteral)
    case Class(negated, members) =>
      Chars(if negated then Invert(Fold(MembersSet(members))) else Fold(MembersSet(members)), NoLiteral)
    case Grouped(_, alts) => Group(BranchesOf(alts, lower))
  }

  function ItemsOf(pieces: seq<Piece>, lower: nat -> char): seq<Item>
    requires WellPieces(pieces)
    decreases pieces
  {
    if pieces == [] then [] else [ItemOf(pieces[0], lower)] + ItemsOf(pieces[1..], lower)
  }

  function ItemOf(p: Piece, lower: nat -> char): Item
    requires WellPiece(p)
    decreases p
  {
    match p
    case Piece(atom, quant, _) => Item(NodeOf(atom, lower), QuantMin(quant), QuantMax(quant))
  }

  function BranchesOf(alts: seq<Alt>, lower: nat -> char): seq<Branch>
    requires WellAlts(alts)
    decreases alts
  {
    if alts == [] then []
    else [match alts[0] case Alt(pieces) => Branch(ItemsOf(pieces, lower))] + BranchesOf(alts[1..], lower)
  }

  // ----- Reading back -----

  predicate StartsWithDigit(s: string) {
    s != "" && '0' <= s[0] <= '9'
  }

  lemma {:induction false} DigitsRead(text: string, rest: string)
    requires AllDigits(text) && !StartsWithDigit(rest)
    ensures Digits(text + rest) == |text| && (text + rest)[..|text|] == text && (text + rest)[|text|..] == rest
  {
    if text == "" {
      assert text + rest == rest;
    } else {
      assert (text + rest)[1..] == text[1..] + rest;
      DigitsRead(text[1..], rest);
    }
  }

  lemma BracesRead(n: nat, rest: string)
    ensures Braces(DecimalText(n) + ("}" + rest)) == Some(Bounds(n, Finite(n), rest))
    ensures Braces(DecimalText(n) + (",}" + rest)) == Some(Bounds(n, Infinite, rest))
  {
    DigitsRead(DecimalText(n), "}" + rest);
    DigitsRead(DecimalText(n), ",}" + rest);
    assert ("}" + rest)[1..] == rest;
    assert (",}" + rest)[1..] == "}" + rest;
  }

  lemma BracesReadBetween(lo: nat, hi: nat, rest: string)
    ensures Braces(DecimalText(lo) + ("," + (DecimalText(hi) + ("}" + rest)))) == Some(Bounds(lo, Finite(hi), rest))
  {
    var tail := DecimalText(hi) + ("}" + rest);
    DigitsRead(DecimalText(lo), "," + tail);
    DigitsRead(DecimalText(hi), "}" + rest);
    assert ("," + tail)[1..] == tail && ("," + tail)[1 + |DecimalText(hi)|..] == tail[|DecimalText(hi)|..];
    assert ("}" + rest)[1..] == rest;
  }

  /** What may follow an item: nothing that would be read as its quantifier. */
  predicate Clear(rest: string) {
    rest == "" || rest[0] !in "*+?{"
  }

  lemma MarkRead(b: Bounds, idle: bool, rest: string)
    requires Clear(rest) && b.rest == (if idle then "?" else "") + rest
    ensures Settled(b).rest == rest
  {
    assert idle ==> b.rest[1..] == rest;
    assert !idle ==> b.rest == rest;
  }

  lemma SignRead(sign: char, idle: bool, rest: string)
    requires Clear(rest) && sign in "*+?"
    ensures QuantifierOf([sign] + ((if idle then "?" else "") + rest)) ==
            Bounds(if sign == '+' then 1 else 0, if sign == '?' then Finite(1) else Infinite, rest)
  {
    var tail := (if idle then "?" else "") + rest;
    Behind([sign], tail);
    MarkRead(Bounds(0, Infinite, tail), idle, rest);
  }

  /** The upper bound as written. */
  function Limit(q: Quant): Max
    requires q.Times? || q.AtLeast? || q.Between?
  {
    match q case Times(n) => Finite(n) case AtLeast(_) => Infinite case Between(_, hi) => Finite(hi)
  }

  lemma BracesSettle(s: string, b: Bounds, idle: bool, rest: string)
    requires s != "" && s[0] == '{' && Braces(s[1..]) == Some(b)
    requires Clear(rest) && b.rest == (if idle then "?" else "") + rest
    ensures QuantifierOf(s) == Bounds(b.min, if b.max.Finite? && b.max.n > BOUNDED_MAX then Infinite else b.max, rest)
  {
    MarkRead(b, idle, rest);
  }

  lemma BracedQuantRead(q: Quant, idle: bool, rest: string)
    requires Clear(rest) && (q.Times? || q.AtLeast? || q.Between?)
    ensures QuantifierOf(WriteQuant(q, idle) + rest) == Bounds(QuantMin(q), QuantMax(q), rest)
  {
    var tail := (if idle then "?" else "") + rest;
    var s := WriteQuant(q, idle) + rest;
    BracedRead(q, idle, rest);
    BoundsRead(q, tail);
    BracesSettle(s, Bounds(QuantMin(q), Limit(q), tail), idle, rest);
  }

  lemma QuantRead(q: Quant, idle: bool, rest: string)
    requires Clear(rest) && (q.Once? ==> !idle)
    ensures QuantifierOf(WriteQuant(q, idle) + rest) == Bounds(QuantMin(q), QuantMax(q), rest)
  {
    var mark := if idle then "?" else "";
    match q
    case Once => assert WriteQuant(q, idle) + rest == rest;
    case Star =>
      SignRead('*', idle, rest);
      Regroup("*", mark, rest);
    case Plus =>
      SignRead('+', idle, rest);
      Regroup("+", mark, rest);
    case Opt =>
      SignRead('?', idle, rest);
      Regroup("?", mark, rest);
    case _ => BracedQuantRead(q, idle, rest);
  }

  lemma BoundsRead(q: Quant, tail: string)
    requires q.Times? || q.AtLeast? || q.Between?
    ensures Braces(WriteBounds(q) + tail) == Some(Bounds(QuantMin(q), Limit(q), tail))
  {
    match q
    case Times(n) =>
      Regroup(DecimalText(n), "}", tail);
      BracesRead(n, tail);
    case AtLeast(n) =>
      Regroup(DecimalText(n), ",}", tail);
      BracesRead(n, tail);
    case Between(lo, hi) =>
      Regroup(DecimalText(lo), "," + (DecimalText(hi) + "}"), tail);
      Regroup(",", DecimalText(hi) + "}", tail);
      Regroup(DecimalText(hi), "}", tail);
      BracesReadBetween(lo, hi, tail);
  }

  lemma BracedRead(q: Quant, idle: bool, rest: string)
    requires q.Times? || q.AtLeast? || q.Between?
    ensures WriteQuant(q, idle) + rest != "" && (WriteQuant(q, idle) + rest)[0] == '{'
    ensures (WriteQuant(q, idle) + rest)[1..] == WriteBounds(q) + ((if idle then "?" else "") + rest)
  {
    var mark := if idle then "?" else "";
    Regroup("{" + WriteBounds(q), mark, rest);
    Regroup("{", WriteBounds(q), mark + rest);
    Behind("{", WriteBounds(q) + (mark + rest));
  }

  lemma HexRead(digits: string, rest: string, inClass: bool)
    requires WellWritten(Hex(digits), inClass)
    ensures EscapeOf(EscapeText(Hex(digits)) + rest, inClass) == Ok(Code(HexOf(digits)), rest)
  {
    var sign := if |digits| == 2 then 'x' else 'u';
    Regroup([sign], digits, rest);
    Behind([sign], digits + rest);
    Behind(digits, rest);
    assert (digits + rest)[..|digits|] == digits;
  }

  lemma ControlLetterRead(c: char, rest: string, inClass: bool)
    requires IsLetter(c)
    ensures EscapeOf(EscapeText(ControlLetter(c)) + rest, inClass) == Ok(Code(c as int % 32), rest)
  {
    Regroup("c", [c], rest);
    Behind("c", [c] + rest);
    Behind([c], rest);
    assert EscapeText(ControlLetter(c)) == "c" + [c];
  }

  lemma SingleRead(c: char, rest: string, inClass: bool)
    requires !IsAlphanumeric(c) || ControlCode(c).Some? || (inClass && c == 'b')
    ensures EscapeOf([c] + rest, inClass) ==
            Ok(Code(if ControlCode(c).Some? then ControlCode(c).value else if c == 'b' then 8 else c as int), rest)
  {
    Behind([c], rest);
  }

  /** An escaped character is read as its code. */
  lemma EscapeTextRead(w: Written, rest: string, inClass: bool)
    requires WellWritten(w, inClass) && !w.Raw?
    ensures EscapeOf(EscapeText(w) + rest, inClass) == Ok(Code(CodeOf(w)), rest)
  {
    match w
    case Hex(digits) => HexRead(digits, rest, inClass);
    case ControlLetter(c) => ControlLetterRead(c, rest, inClass);
    case Quoted(c) => SingleRead(c, rest, inClass);
    case Control(c) => SingleRead(c, rest, inClass);
  }

  lemma InClassRead(w: Written, rest: string)
    requires WellWritten(w, true)
    ensures ClassAtomOf(WriteChar(w) + rest) == Ok(Code(CodeOf(w)), rest)
  {
    if w.Raw? {
      Behind([w.c], rest);
    } else {
      Regroup(['\\'], EscapeText(w), rest);
      Behind(['\\'], EscapeText(w) + rest);
      EscapeTextRead(w, rest, true);
    }
  }

  lemma LetterRead(w: Written, rest: string, lower: nat -> char)
    requires WellWritten(w, false)
    ensures AtomOf(WriteChar(w) + rest, lower) == Ok(LiteralNode(CodeOf(w), lower), rest)
  {
    if w.Raw? {
      Behind([w.c], rest);
    } else {
      Regroup(['\\'], EscapeText(w), rest);
      Behind(['\\'], EscapeText(w) + rest);
      EscapeTextRead(w, rest, false);
    }
  }

  /** How a class goes on: with its end or a member, never with `-` or `^`. */
  lemma MembersStart(members: seq<Member>, rest: string)
    requires forall i :: 0 <= i < |members| ==> WellMember(members[i])
    ensures var s := WriteMembers(members) + ("]" + rest);
      s != "" && s[0] != '-' && s[0] != '^' && (members != [] ==> s[0] != ']')
  {
    if members == [] {
      assert WriteMembers(members) + ("]" + rest) == "]" + rest;
    } else {
      assert WellMember(members[0]) && WriteMember(members[0]) != "";
    }
  }

  lemma {:induction false} ClassRead(members: seq<Member>, rest: string)
    requires forall i :: 0 <= i < |members| ==> WellMember(members[i])
    ensures ClassBody(WriteMembers(members) + ("]" + rest)) == Ok(MembersSet(members), rest)
    decreases |members|
  {
    var s := WriteMembers(members) + ("]" + rest);
    if members == [] {
      assert s == "]" + rest;
      Behind("]", rest);
    } else {
      var tail := WriteMembers(members[1..]) + ("]" + rest);
      Regroup(WriteMember(members[0]), WriteMembers(members[1..]), "]" + rest);
      ClassRead(members[1..], rest);
      MembersStart(members, rest);
      MembersStart(members[1..], rest);
      MemberRead(members[0], tail, s);
    }
  }

  lemma SpanRead(lo: Written, hi: Written, tail: string, s: string)
    requires WellMember(Span(lo, hi)) && s == WriteMember(Span(lo, hi)) + tail && s != "" && s[0] != ']'
    ensures ClassBody(s) == AlsoIn(MemberSet(Span(lo, hi)), ClassBody(tail))
  {
    var more := "-" + (WriteChar(hi) + tail);
    Regroup(WriteChar(lo) + "-", WriteChar(hi), tail);
    Regroup(WriteChar(lo), "-", WriteChar(hi) + tail);
    InClassRead(lo, more);
    Behind("-", WriteChar(hi) + tail);
    InClassRead(hi, tail);
    RangeStep(s, CodeOf(lo), more, CodeOf(hi), tail);
  }

  lemma MemberRead(m: Member, tail: string, s: string)
    requires WellMember(m) && s == WriteMember(m) + tail && s != "" && s[0] != ']' && tail != "" && tail[0] != '-'
    ensures ClassBody(s) == AlsoIn(MemberSet(m), ClassBody(tail))
  {
    match m
    case Single(w) =>
      InClassRead(w, tail);
      AtomStep(s, Code(CodeOf(w)), tail);
    case Span(lo, hi) => SpanRead(lo, hi, tail, s);
    case CategoryIn(c) =>
      EscapeRead(c, tail);
      AtomStep(s, Several(CategorySet(c)), tail);
  }

  predicate WellKind(kind: Kind) {
    kind.Named? ==> kind.name != "" && kind.name[0] != '=' && kind.name[0] != '!' && '>' !in kind.name
  }

  lemma NamedRead(name: string, rest: string)
    requires WellKind(Named(name))
    ensures GroupOpen("?<" + name + ">" + rest) == Ok((), rest)
  {
    var front := "?<" + name;
    Regroup(front, ">", rest);
    PositionOf(front, '>', rest);
    Behind(front + ">", rest);
  }

  lemma KindRead(kind: Kind, rest: string)
    requires WellKind(kind) && rest != "" && rest[0] != '?'
    ensures GroupOpen(WriteKind(kind) + rest) == Ok((), rest)
  {
    match kind
    case Capturing => Behind("", rest);
    case NonCapturing => Behind("?:", rest);
    case Named(name) => NamedRead(name, rest);
  }

  /** An atom starts with no character that ends an item, a branch or a group. */
  lemma AtomStart(a: Atom)
    requires WellAtom(a)
    ensures WriteAtom(a) != "" && WriteAtom(a)[0] !in "*+?{|)"
  {
  }

  /** What may stand behind the pieces of a branch. */
  predicate Ends(rest: string) {
    rest == "" || rest[0] == ')' || rest[0] == '|'
  }

  lemma PiecesStart(pieces: seq<Piece>, rest: string)
    requires WellPieces(pieces) && Ends(rest)
    ensures Clear(WritePieces(pieces) + rest)
    ensures pieces != [] ==> WritePieces(pieces) != "" && WritePieces(pieces)[0] !in "|)"
  {
    if pieces == [] {
      assert WritePieces(pieces) + rest == rest;
    } else {
      AtomStart(pieces[0].atom);
    }
  }

  lemma AltsStart(alts: seq<Alt>, rest: string)
    requires alts != [] && WellAlts(alts) && rest != "" && Ends(rest)
    ensures WriteAlts(alts) + rest != "" && (WriteAlts(alts) + rest)[0] != '?'
  {
    var pieces := alts[0].pieces;
    if pieces == [] {
      assert WritePieces(pieces) == "";
    } else {
      PiecesStart(pieces, rest);
    }
  }

  lemma {:induction false} AtomRead(a: Atom, rest: string, lower: nat -> char)
    requires WellAtom(a)
    ensures AtomOf(WriteAtom(a) + rest, lower) == Ok(NodeOf(a, lower), rest)
    decreases a, 1
  {
    match a
    case Class(negated, members) => ClassAtomRead(negated, members, rest, lower);
    case Grouped(kind, alts) => GroupRead(kind, alts, rest, lower);
    case Letter(w) => LetterRead(w, rest, lower);
    case Dot => Behind(".", rest);
    case Edge(c) => Behind([c], rest);
    case Boundary(c) => EscapeRead(c, rest);
    case Category(c) => EscapeRead(c, rest);
  }

  lemma EscapeRead(c: char, rest: string)
    ensures (['\\', c] + rest)[1..] == [c] + rest && ([c] + rest)[1..] == rest
  {
  }

  lemma WrittenClass(negated: bool, members: seq<Member>, rest: string)
    ensures WriteAtom(Class(negated, members)) + rest ==
            "[" + ((if negated then "^" else "") + (WriteMembers(members) + ("]" + rest)))
  {
  }

  lemma ClassAtomRead(negated: bool, members: seq<Member>, rest: string, lower: nat -> char)
    requires WellAtom(Class(negated, members))
    ensures AtomOf(WriteAtom(Class(negated, members)) + rest, lower) == Ok(NodeOf(Class(negated, members), lower), rest)
  {
    var body := WriteMembers(members) + ("]" + rest);
    var sign := if negated then "^" else "";
    WrittenClass(negated, members, rest);
    Behind("[", sign + body);
    Behind(sign, body);
    MembersStart(members, rest);
    ClassRead(members, rest);
    assert !negated ==> sign + body == body;
  }

  lemma {:induction false} GroupRead(kind: Kind, alts: seq<Alt>, rest: string, lower: nat -> char)
    requires WellAtom(Grouped(kind, alts))
    ensures AtomOf(WriteAtom(Grouped(kind, alts)) + rest, lower) == Ok(NodeOf(Grouped(kind, alts), lower), rest)
    decreases alts, 2
  {
    var body := WriteAlts(alts) + (")" + rest);
    var s := WriteAtom(Grouped(kind, alts)) + rest;
    assert s == "(" + (WriteKind(kind) + body);
    Behind("(", WriteKind(kind) + body);
    AltsStart(alts, ")" + rest);
    KindRead(kind, body);
    AltsRead(alts, ")" + rest, lower);
    assert (")" + rest)[1..] == rest;
  }

  /** The items of a branch, in front of whatever the rest is read as. */
  lemma {:induction false} PiecesRead(pieces: seq<Piece>, rest: string, lower: nat -> char)
    requires WellPieces(pieces) && Ends(rest) && AltsOf(rest, lower).Ok?
    ensures var r := AltsOf(rest, lower);
      AltsOf(WritePieces(pieces) + rest, lower) ==
      Ok([Branch(ItemsOf(pieces, lower) + r.value[0].items)] + r.value[1..], r.rest)
    decreases pieces, 0
  {
    var r := AltsOf(rest, lower);
    if pieces == [] {
      assert WritePieces(pieces) + rest == rest;
      NothingAdded(r.value);
    } else {
      var more := WritePieces(pieces[1..]) + rest;
      Regroup(WritePiece(pieces[0]), WritePieces(pieces[1..]), rest);
      PiecesStart(pieces[1..], rest);
      PiecesRead(pieces[1..], rest, lower);
      PieceRead(pieces[0], more, lower);
      Prepended(ItemOf(pieces[0], lower), ItemsOf(pieces[1..], lower), r.value[0].items, r.value[1..]);
    }
  }

  /** One atom with its quantifier, in front of what is read as alternatives. */
  lemma {:induction false} PieceRead(p: Piece, more: string, lower: nat -> char)
    requires WellPiece(p) && Clear(more) && AltsOf(more, lower).Ok?
    ensures var r := AltsOf(more, lower);
      AltsOf(WritePiece(p) + more, lower) == Ok(Prepend(ItemOf(p, lower), r.value), r.rest)
    decreases p
  {
    match p
    case Piece(atom, quant, idle) =>
      var behind := WriteQuant(quant, idle) + more;
      assert WritePiece(p) + more == WriteAtom(atom) + behind;
      AtomStart(atom);
      AtomRead(atom, behind, lower);
      QuantRead(quant, idle, more);
  }

  lemma NothingAdded(branches: seq<Branch>)
    requires branches != []
    ensures [Branch([] + branches[0].items)] + branches[1..] == branches
  {
    assert [] + branches[0].items == branches[0].items;
    assert [branches[0]] + branches[1..] == branches;
  }

  lemma Prepended(it: Item, items: seq<Item>, more: seq<Item>, branches: seq<Branch>)
    ensures Prepend(it, [Branch(items + more)] + branches) == [Branch(([it] + items) + more)] + branches
  {
    assert [it] + (items + more) == ([it] + items) + more;
  }

  lemma {:induction false} AltsRead(alts: seq<Alt>, rest: string, lower: nat -> char)
    requires alts != [] && WellAlts(alts) && (rest == "" || rest[0] == ')')
    ensures AltsOf(WriteAlts(alts) + rest, lower) == Ok(BranchesOf(alts, lower), rest)
    decreases alts, 0
  {
    match alts[0]
    case Alt(pieces) =>
      assert ItemsOf(pieces, lower) + [] == ItemsOf(pieces, lower);
      if |alts| == 1 {
        assert WriteAlts(alts) + rest == WritePieces(pieces) + rest;
        PiecesRead(pieces, rest, lower);
        assert alts[1..] == [];
      } else {
        var tail := WriteAlts(alts[1..]) + rest;
        Regroup(WritePieces(pieces), "|" + WriteAlts(alts[1..]), rest);
        Regroup("|", WriteAlts(alts[1..]), rest);
        AltsRead(alts[1..], rest, lower);
        BarRead(tail, BranchesOf(alts[1..], lower), rest, lower);
        PiecesRead(pieces, "|" + tail, lower);
      }
  }

  lemma BarRead(tail: string, branches: seq<Branch>, rest: string, lower: nat -> char)
    requires AltsOf(tail, lower) == Ok(branches, rest)
    ensures AltsOf("|" + tail, lower) == Ok([Branch([])] + branches, rest)
    ensures ([Branch([])] + branches)[1..] == branches
  {
    Behind("|", tail);
  }

  /** Every well-formed pattern is read as the tree it was written from. */
  lemma WriteThenParse(alts: seq<Alt>, lower: nat -> char)
    requires alts != [] && WellAlts(alts)
    ensures TreeOf(WriteAlts(alts), lower) == Ok(BranchesOf(alts, lower), "")
  {
    AltsRead(alts, "", lower);
    assert WriteAlts(alts) + "" == WriteAlts(alts);
  }

  /** Parsing and analysing a written pattern accepts it exactly when the tree it was written from is safe. */
  lemma WrittenVerdict(alts: seq<Alt>, lower: nat -> char)
    requires alts != [] && WellAlts(alts)
    ensures var p := TreeOf(WriteAlts(alts), lower); var tree := BranchesOf(alts, lower);
      p.Ok? &&
      (AnalyzeAlts(p.value, 0).Pass? <==> AllSafe(AllBranches(tree)) && Weight(tree) <= MAX_UNBOUNDED_QUANTIFIERS)
  {
    WriteThenParse(alts, lower);
    AcceptedExactly(BranchesOf(alts, lower));
  }
}
