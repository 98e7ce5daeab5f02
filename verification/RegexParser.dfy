/**
 * The recursive-descent parser of the regex checker (fluxDown/rules/regex-safety.ts): patterns to the
 * simplified trees that the analyser works on.
 */
module RegexParser {
  import opened Numerals
  import opened Options
  import opened RegexSafety
  import opened Sequences

  const NON_ASCII := 128
  const BOUNDED_MAX := 100

  datatype Reason =
    | Trailing | NamedGroup | Lookaround | UnclosedGroup | DanglingEscape | Backreference | UnclosedClass | ClassEscape

  /** A parse of the front of a text, and what is left of it. */
  datatype Parsed<T> = Ok(value: T, rest: string) | Bad(reason: Reason)

  // ----- Character sets -----

  function Index(code: nat): nat {
    if code < NON_ASCII then code else NON_ASCII
  }

  function One(code: nat): CharSet {
    seq(SET_SIZE, i => i == Index(code))
  }

  /** Every index that some code of the range has. */
  function Range(lo: nat, hi: nat): CharSet {
    seq(SET_SIZE, i => lo <= hi && if i < NON_ASCII then lo <= i <= hi else hi >= NON_ASCII)
  }

  function Union(a: CharSet, b: CharSet): CharSet {
    seq(SET_SIZE, i requires 0 <= i < SET_SIZE => a[i] || b[i])
  }

  function Invert(a: CharSet): CharSet {
    seq(SET_SIZE, i requires 0 <= i < SET_SIZE => !a[i])
  }

  /** Both cases of every letter in the set. */
  function Fold(a: CharSet): CharSet {
    seq(SET_SIZE, i requires 0 <= i < SET_SIZE =>
      a[i] || (65 <= i <= 90 && a[i + 32]) || (97 <= i <= 122 && a[i - 32]))
  }

  function EmptySet(): CharSet {
    seq(SET_SIZE, _ => false)
  }

  predicate IsCategory(c: char) {
    c in "dDwWsS"
  }

  /** The sets of `\d`, `\w` and `\s`, and their complements. */
  function CategorySet(c: char): CharSet
    requires IsCategory(c)
  {
    var base: CharSet := seq(SET_SIZE, i =>
      if c in "dD" then 48 <= i <= 57
      else if c in "wW" then 48 <= i <= 57 || 65 <= i <= 90 || 97 <= i <= 122 || i == 95
      else 9 <= i <= 13 || i == 32 || i == NON_ASCII);
    if c in "DWS" then Invert(base) else base
  }

  /** `addRange`: marks the index of every code from lo to hi. */
  method AddRange(chars: CharSet, lo: nat, hi: nat) returns (r: CharSet)
    ensures r == Union(chars, Range(lo, hi))
  {
    r := chars;
    var code := lo;
    while code <= hi
      invariant lo <= code <= hi + 1 || (code == lo > hi)
      invariant forall i :: 0 <= i < NON_ASCII ==> (r[i] <==> chars[i] || lo <= i < code)
      invariant r[NON_ASCII] <==> chars[NON_ASCII] || (lo < code && code > NON_ASCII)
    {
      r := r[Index(code) := true];
      code := code + 1;
    }
  }

  // ----- Escapes and classes -----

  /** One escaped character: a code, a set of characters, or a position. */
  datatype Escape = Code(code: nat) | Several(chars: CharSet) | Place

  predicate HexFront(s: string, n: nat) {
    n <= |s| && forall i :: 0 <= i < n ==> IsHex(s[i])
  }

  function ControlCode(c: char): Option<nat> {
    match c
    case 'n' => Some(10)
    case 'r' => Some(13)
    case 't' => Some(9)
    case 'f' => Some(12)
    case 'v' => Some(11)
    case '0' => Some(0)
    case _ => None
  }

  predicate IsLetter(c: char) {
    'a' <= c <= 'z' || 'A' <= c <= 'Z'
  }

  /** The rules of `readEscape`, on the text behind the backslash. */
  function EscapeOf(s: string, inClass: bool): (r: Parsed<Escape>)
    ensures r.Ok? ==> |r.rest| < |s|
  {
    if s == "" then Bad(DanglingEscape)
    else
      var e, rest := s[0], s[1..];
      if IsCategory(e) then Ok(Several(CategorySet(e)), rest)
      else if e == 'b' then Ok(if inClass then Code(8) else Place, rest)
      else if e == 'B' && !inClass then Ok(Place, rest)
      else if e == 'k' || '1' <= e <= '9' then Bad(Backreference)
      else if ControlCode(e).Some? then Ok(Code(ControlCode(e).value), rest)
      else if e == 'x' && HexFront(rest, 2) then Ok(Code(HexOf(rest[..2])), rest[2..])
      else if e == 'u' && HexFront(rest, 4) then Ok(Code(HexOf(rest[..4])), rest[4..])
      else if e == 'c' && rest != "" && IsLetter(rest[0]) then Ok(Code(rest[0] as int % 32), rest[1..])
      else Ok(Code(e as int), rest)
  }

  /** `classAtom`. */
  function ClassAtomOf(s: string): (r: Parsed<Escape>)
    requires s != ""
    ensures r.Ok? ==> |r.rest| < |s| && !r.value.Place?
  {
    if s[0] != '\\' then Ok(Code(s[0] as int), s[1..])
    else
      var r := EscapeOf(s[1..], true);
      if r.Ok? && r.value.Place? then Bad(ClassEscape) else r
  }

  function AtomSet(a: Escape): CharSet {
    match a
    case Code(code) => One(code)
    case Several(chars) => chars
    case Place => EmptySet()
  }

  /** A `-` between this atom and another character makes a range. */
  predicate RangeAhead(a: Escape, rest: string) {
    a.Code? && |rest| >= 2 && rest[0] == '-' && rest[1] != ']'
  }

  /** The members of a class up to its closing bracket, on the text behind `[` and `^`. */
  function ClassBody(s: string): (r: Parsed<CharSet>)
    ensures r.Ok? ==> |r.rest| < |s|
    decreases |s|
  {
    if s == "" then Bad(UnclosedClass)
    else if s[0] == ']' then Ok(EmptySet(), s[1..])
    else
      var a := ClassAtomOf(s);
      if a.Bad? then Bad(a.reason)
      else
        var b := if RangeAhead(a.value, a.rest) then ClassAtomOf(a.rest[1..]) else Ok(Place, "");
        if b.Bad? then Bad(b.reason)
        else if b.value.Code? && RangeAhead(a.value, a.rest) then
          AlsoIn(Range(Low(a.value.code, b.value.code), High(a.value.code, b.value.code)), ClassBody(b.rest))
        else AlsoIn(AtomSet(a.value), ClassBody(a.rest))
  }

  function Low(a: nat, b: nat): nat {
    if a < b then a else b
  }

  function High(a: nat, b: nat): nat {
    if a < b then b else a
  }

  function AlsoIn(chars: CharSet, r: Parsed<CharSet>): Parsed<CharSet> {
    if r.Ok? then Ok(Union(chars, r.value), r.rest) else r
  }

  /** `parseClass`, on the text behind `[`. */
  function ClassOf(s: string): (r: Parsed<Node>)
    ensures r.Ok? ==> |r.rest| < |s|
  {
    var negate := s != "" && s[0] == '^';
    var body := ClassBody(if negate then s[1..] else s);
    if body.Bad? then Bad(body.reason)
    else Ok(Chars(if negate then Invert(Fold(body.value)) else Fold(body.value), NoLiteral), body.rest)
  }

  // ----- Quantifiers -----

  /** Length of the run of digits at the front. */
  function Digits(s: string): (n: nat)
    ensures n <= |s| && AllDigits(s[..n])
  {
    if s == "" || !('0' <= s[0] <= '9') then 0
    else
      var n := Digits(s[1..]);
      assert s[..n + 1] == [s[0]] + s[1..][..n];
      n + 1
  }

  datatype Bounds = Bounds(min: nat, max: Max, rest: string)

  /** The pattern of a quantifier in braces, on the text behind `{`. */
  function Braces(s: string): (r: Option<Bounds>)
    ensures r.Some? ==> |r.value.rest| < |s|
  {
    var n := Digits(s);
    if n == 0 || n == |s| then None
    else
      var min, after := Decimal(s[..n]), s[n..];
      if after[0] == '}' then Some(Bounds(min, Finite(min), after[1..]))
      else if after[0] != ',' then None
      else
        var k := Digits(after[1..]);
        var tail := after[1 + k..];
        if tail == "" || tail[0] != '}' then None
        else Some(Bounds(min, if k == 0 then Infinite else Finite(Decimal(after[1..][..k])), tail[1..]))
  }

  /** Bounds above the limit count as none, and a lazy mark is skipped. */
  function Settled(b: Bounds): Bounds {
    Bounds(
      b.min,
      if b.max.Finite? && b.max.n > BOUNDED_MAX then Infinite else b.max,
      if b.rest != "" && b.rest[0] == '?' then b.rest[1..] else b.rest)
  }

  /** `parseQuantifier`. */
  function QuantifierOf(s: string): (r: Bounds)
    ensures |r.rest| <= |s|
  {
    if s == "" then Bounds(1, Finite(1), s)
    else if s[0] == '*' then Settled(Bounds(0, Infinite, s[1..]))
    else if s[0] == '+' then Settled(Bounds(1, Infinite, s[1..]))
    else if s[0] == '?' then Settled(Bounds(0, Finite(1), s[1..]))
    else if s[0] == '{' && Braces(s[1..]).Some? then Settled(Braces(s[1..]).value)
    else Bounds(1, Finite(1), s)
  }

  // ----- Atoms, groups and alternatives -----

  /** The node of one character; `lower` is the host's lower-casing of a code. */
  function LiteralNode(code: nat, lower: nat -> char): Node {
    Chars(Fold(One(code)), Exactly(lower(code)))
  }

  function DotSet(): CharSet {
    seq(SET_SIZE, i => i != 10 && i != 13)
  }

  /** Where the alternatives of a group begin, on the text behind `(`. */
  function GroupOpen(s: string): (r: Parsed<()>)
    ensures r.Ok? ==> |r.rest| <= |s|
  {
    if s == "" || s[0] != '?' then Ok((), s)
    else if |s| > 1 && s[1] == ':' then Ok((), s[2..])
    else if |s| > 1 && s[1] == '<' && !(|s| > 2 && (s[2] == '=' || s[2] == '!')) then
      var close := Position(s, '>');
      if close < 0 then Bad(NamedGroup) else Ok((), s[close + 1..])
    else Bad(Lookaround)
  }

  function GroupOf(s: string, lower: nat -> char): (r: Parsed<Node>)
    ensures r.Ok? ==> |r.rest| < |s|
    decreases |s|, 2
  {
    var open := GroupOpen(s);
    if open.Bad? then Bad(open.reason)
    else
      var alts := AltsOf(open.rest, lower);
      if alts.Bad? then Bad(alts.reason)
      else if alts.rest == "" || alts.rest[0] != ')' then Bad(UnclosedGroup)
      else Ok(Group(alts.value), alts.rest[1..])
  }

  /** `parseAtom`. */
  function AtomOf(s: string, lower: nat -> char): (r: Parsed<Node>)
    requires s != ""
    ensures r.Ok? ==> |r.rest| < |s|
    decreases |s|, 0
  {
    var c, rest := s[0], s[1..];
    if c == '(' then GroupOf(rest, lower)
    else if c == '[' then ClassOf(rest)
    else if c == '\\' then
      var e := EscapeOf(rest, false);
      if e.Bad? then Bad(e.reason)
      else Ok(match e.value
              case Place => Zero
              case Several(chars) => Chars(chars, NoLiteral)
              case Code(code) => LiteralNode(code, lower), e.rest)
    else if c == '.' then Ok(Chars(DotSet(), NoLiteral), rest)
    else if c == '^' || c == '$' then Ok(Zero, rest)
    else Ok(LiteralNode(c as int, lower), rest)
  }

  function Prepend(it: Item, alts: seq<Branch>): seq<Branch> {
    if alts == [] then [Branch([it])] else [Branch([it] + alts[0].items)] + alts[1..]
  }

  /** `parseAlts`: up to a closing parenthesis or the end. */
  function AltsOf(s: string, lower: nat -> char): (r: Parsed<seq<Branch>>)
    ensures r.Ok? ==> |r.rest| <= |s| && r.value != []
    decreases |s|, 1
  {
    if s == "" || s[0] == ')' then Ok([Branch([])], s)
    else if s[0] == '|' then
      var more := AltsOf(s[1..], lower);
      if more.Bad? then more else Ok([Branch([])] + more.value, more.rest)
    else
      var atom := AtomOf(s, lower);
      if atom.Bad? then Bad(atom.reason)
      else
        var q := QuantifierOf(atom.rest);
        var more := AltsOf(q.rest, lower);
        if more.Bad? then more else Ok(Prepend(Item(atom.value, q.min, q.max), more.value), more.rest)
  }

  /** `parse`. */
  function TreeOf(s: string, lower: nat -> char): Parsed<seq<Branch>> {
    var r := AltsOf(s, lower);
    if r.Ok? && r.rest != "" then Bad(Trailing) else r
  }

  // ----- The parser as it runs -----

  /** One turn of the loop over a class: an atom of its own, or a range. */
  lemma AtomStep(s: string, a: Escape, rest: string)
    requires s != "" && s[0] != ']' && ClassAtomOf(s) == Ok(a, rest) && !RangeAhead(a, rest)
    ensures ClassBody(s) == AlsoIn(AtomSet(a), ClassBody(rest))
  {
  }

  lemma RangeStep(s: string, lo: nat, more: string, hi: nat, rest: string)
    requires s != "" && s[0] != ']' && ClassAtomOf(s) == Ok(Code(lo), more) && RangeAhead(Code(lo), more)
    requires ClassAtomOf(more[1..]) == Ok(Code(hi), rest)
    ensures ClassBody(s) == AlsoIn(Range(Low(lo, hi), High(lo, hi)), ClassBody(rest))
  {
  }

  /** A returned value or a thrown `Unsupported`. */
  datatype Outcome<T> = Value(value: T) | Thrown(reason: Reason)

  /** The branches so far, with what the rest of the text adds to the last one and behind it. */
  function Glued(alts: seq<Branch>, r: Parsed<seq<Branch>>): Parsed<seq<Branch>>
    requires alts != [] && (r.Ok? ==> r.value != [])
  {
    if r.Bad? then r
    else
      var n := |alts| - 1;
      Ok(alts[..n] + [Branch(alts[n].items + r.value[0].items)] + r.value[1..], r.rest)
  }

  lemma GlueEnd(alts: seq<Branch>, rest: string)
    requires alts != []
    ensures Glued(alts, Ok([Branch([])], rest)) == Ok(alts, rest)
  {
    var n := |alts| - 1;
    var end: seq<Branch> := [Branch([])];
    assert alts[n].items + end[0].items == alts[n].items && end[1..] == [];
    assert alts[..n] + [Branch(alts[n].items)] + [] == alts;
  }

  lemma GlueBar(alts: seq<Branch>, more: Parsed<seq<Branch>>)
    requires alts != [] && more.Ok? && more.value != []
    ensures Glued(alts, Ok([Branch([])] + more.value, more.rest)) == Glued(alts + [Branch([])], more)
  {
    var n := |alts| - 1;
    var bar := [Branch([])] + more.value;
    assert alts[n].items + bar[0].items == alts[n].items && bar[1..] == more.value;
    assert alts[..n] + [Branch(alts[n].items)] + more.value == alts + more.value;
    var longer := alts + [Branch([])];
    assert longer[..n + 1] == alts && longer[n + 1].items + more.value[0].items == more.value[0].items;
    assert alts + [Branch(more.value[0].items)] + more.value[1..] == alts + more.value;
  }

  lemma GlueItem(alts: seq<Branch>, it: Item, more: Parsed<seq<Branch>>)
    requires alts != [] && more.Ok? && more.value != []
    ensures var n := |alts| - 1;
      Glued(alts, Ok(Prepend(it, more.value), more.rest)) == Glued(alts[n := Branch(alts[n].items + [it])], more)
  {
    var n := |alts| - 1;
    assert alts[n].items + ([it] + more.value[0].items) == (alts[n].items + [it]) + more.value[0].items;
    assert alts[n := Branch(alts[n].items + [it])][..n] == alts[..n];
  }

  lemma UnionMoved(a: CharSet, b: CharSet, r: Parsed<CharSet>)
    ensures AlsoIn(a, AlsoIn(b, r)) == AlsoIn(Union(a, b), r) && AlsoIn(EmptySet(), r) == r
  {
    if r.Ok? {
      assert Union(a, Union(b, r.value)) == Union(Union(a, b), r.value);
      assert Union(EmptySet(), r.value) == r.value;
    }
  }

  class Parser {
    const src: string
    const lower: nat -> char
    var pos: nat

    constructor (src: string, lower: nat -> char)
      ensures Valid() && pos == 0 && this.src == src && this.lower == lower
    {
      this.src, this.lower, pos := src, lower, 0;
    }

    predicate Valid()
      reads this
    {
      pos <= |src|
    }

    /** What is still to be read. */
    function Rest(): string
      requires Valid()
      reads this
    {
      src[pos..]
    }

    /** The method returns and leaves behind what the parsing function says. */
    ghost predicate Follows<T>(r: Outcome<T>, p: Parsed<T>)
      reads this
    {
      Valid() && match p case Ok(value, rest) => r == Value(value) && Rest() == rest case Bad(reason) => r == Thrown(reason)
    }

    method Skip(n: nat)
      requires Valid() && n <= |Rest()|
      modifies this
      ensures Valid() && Rest() == old(Rest())[n..]
    {
      pos := pos + n;
    }

    /** `readEscape`, from the backslash on. */
    method ReadEscape(inClass: bool) returns (r: Outcome<Escape>)
      requires Valid() && Rest() != "" && Rest()[0] == '\\'
      modifies this
      ensures Follows(r, EscapeOf(old(Rest())[1..], inClass))
    {
      Skip(1);
      if pos == |src| { return Thrown(DanglingEscape); }
      var e := src[pos];
      Skip(1);
      if IsCategory(e) { return Value(Several(CategorySet(e))); }
      if e == 'b' { return Value(if inClass then Code(8) else Place); }
      if e == 'B' && !inClass { return Value(Place); }
      if e == 'k' || '1' <= e <= '9' { return Thrown(Backreference); }
      if ControlCode(e).Some? { return Value(Code(ControlCode(e).value)); }
      if e == 'x' && HexFront(Rest(), 2) {
        var code := HexOf(Rest()[..2]);
        Skip(2);
        return Value(Code(code));
      }
      if e == 'u' && HexFront(Rest(), 4) {
        var code := HexOf(Rest()[..4]);
        Skip(4);
        return Value(Code(code));
      }
      if e == 'c' && Rest() != "" && IsLetter(Rest()[0]) {
        var code := Rest()[0] as int % 32;
        Skip(1);
        return Value(Code(code));
      }
      return Value(Code(e as int));
    }

    method ClassAtom() returns (r: Outcome<Escape>)
      requires Valid() && Rest() != ""
      modifies this
      ensures Follows(r, ClassAtomOf(old(Rest())))
    {
      if src[pos] == '\\' {
        r := ReadEscape(true);
        if r.Value? && r.value.Place? { r := Thrown(ClassEscape); }
        return;
      }
      var code := src[pos] as int;
      Skip(1);
      return Value(Code(code));
    }

    /** One turn of the loop over a class: the set with its next atom or range. */
    method ClassMember(chars: CharSet) returns (r: Outcome<CharSet>)
      requires Valid() && Rest() != "" && Rest()[0] != ']'
      modifies this
      ensures Valid()
      ensures match r
        case Value(more) =>
          |Rest()| < |old(Rest())| && AlsoIn(chars, ClassBody(old(Rest()))) == AlsoIn(more, ClassBody(Rest()))
        case Thrown(reason) => ClassBody(old(Rest())) == Bad(reason)
    {
      ghost var s := Rest();
      var a := ClassAtom();
      if a.Thrown? { return Thrown(a.reason); }
      ghost var behind := Rest();
      if RangeAhead(a.value, Rest()) {
        var save := pos;
        Skip(1);
        var b := ClassAtom();
        if b.Thrown? { return Thrown(b.reason); }
        if b.value.Code? {
          var lo, hi := Low(a.value.code, b.value.code), High(a.value.code, b.value.code);
          RangeStep(s, a.value.code, behind, b.value.code, Rest());
          UnionMoved(chars, Range(lo, hi), ClassBody(Rest()));
          var more := AddRange(chars, lo, hi);
          return Value(more);
        }
        pos := save;
      }
      assert Rest() == behind;
      UnionMoved(chars, AtomSet(a.value), ClassBody(Rest()));
      return Value(Union(chars, AtomSet(a.value)));
    }

    /** `parseClass`, from the opening bracket on. */
    method ParseClass() returns (r: Outcome<Node>)
      requires Valid() && Rest() != "" && Rest()[0] == '['
      modifies this
      ensures Follows(r, ClassOf(old(Rest())[1..]))
    {
      Skip(1);
      var negate := pos < |src| && src[pos] == '^';
      if negate { Skip(1); }
      ghost var s := Rest();
      var chars := EmptySet();
      UnionMoved(chars, chars, ClassBody(s));
      while pos < |src| && src[pos] != ']'
        invariant Valid() && AlsoIn(chars, ClassBody(Rest())) == ClassBody(s)
        decreases |src| - pos
      {
        var more := ClassMember(chars);
        if more.Thrown? { return Thrown(more.reason); }
        chars := more.value;
      }
      if pos == |src| { return Thrown(UnclosedClass); }
      Skip(1);
      assert Union(chars, EmptySet()) == chars;
      return Value(Chars(if negate then Invert(Fold(chars)) else Fold(chars), NoLiteral));
    }

    /** The end of `parseQuantifier`: large bounds become none, and a lazy mark is skipped. */
    method Settle(min: nat, max: Max) returns (bound: Max)
      requires Valid()
      modifies this
      ensures Valid() && Bounds(min, bound, Rest()) == Settled(Bounds(min, max, old(Rest())))
    {
      bound := if max.Finite? && max.n > BOUNDED_MAX then Infinite else max;
      if pos < |src| && src[pos] == '?' { Skip(1); }
    }

    /** The sticky match of a quantifier in braces. */
    method ParseBraces() returns (found: bool, min: nat, max: Max)
      requires Valid() && Rest() != ""
      modifies this
      ensures Valid()
      ensures var b := Braces(old(Rest())[1..]);
        if b.Some? then found && b.value == Bounds(min, max, Rest()) else !found && Rest() == old(Rest())
    {
      var b := Braces(Rest()[1..]);
      if b.None? { return false, 1, Finite(1); }
      BracesAreFront(Rest()[1..]);
      pos := |src| - |b.value.rest|;
      return true, b.value.min, b.value.max;
    }

    method ParseQuantifier() returns (min: nat, max: Max)
      requires Valid()
      modifies this
      ensures Valid() && QuantifierOf(old(Rest())) == Bounds(min, max, Rest())
    {
      min, max := 1, Finite(1);
      if pos == |src| { return; }
      var c := src[pos];
      if c == '*' {
        min, max := 0, Infinite;
        Skip(1);
      } else if c == '+' {
        max := Infinite;
        Skip(1);
      } else if c == '?' {
        min := 0;
        Skip(1);
      } else if c == '{' {
        var found, lo, hi := ParseBraces();
        if !found { return; }
        min, max := lo, hi;
      } else {
        return;
      }
      max := Settle(min, max);
    }

    method OpenGroup() returns (r: Outcome<()>)
      requires Valid()
      modifies this
      ensures Follows(r, GroupOpen(old(Rest())))
    {
      var open := GroupOpen(Rest());
      if open.Bad? { return Thrown(open.reason); }
      OpenIsFront(Rest());
      pos := |src| - |open.rest|;
      return Value(());
    }

    method ParseGroup() returns (r: Outcome<Node>)
      requires Valid() && Rest() != "" && Rest()[0] == '('
      modifies this
      ensures Follows(r, GroupOf(old(Rest())[1..], lower))
      decreases |Rest()|, 0
    {
      Skip(1);
      var open := OpenGroup();
      if open.Thrown? { return Thrown(open.reason); }
      var alts := ParseAlts();
      if alts.Thrown? { return Thrown(alts.reason); }
      if pos == |src| || src[pos] != ')' { return Thrown(UnclosedGroup); }
      Skip(1);
      return Value(Group(alts.value));
    }

    method ParseAtom() returns (r: Outcome<Node>)
      requires Valid() && Rest() != ""
      modifies this
      ensures Follows(r, AtomOf(old(Rest()), lower))
      decreases |Rest()|, 1
    {
      var c := src[pos];
      if c == '(' {
        r := ParseGroup();
      } else if c == '[' {
        r := ParseClass();
      } else if c == '\\' {
        var e := ReadEscape(false);
        r := match e
          case Thrown(reason) => Thrown(reason)
          case Value(Place) => Value(Zero)
          case Value(Several(chars)) => Value(Chars(chars, NoLiteral))
          case Value(Code(code)) => Value(LiteralNode(code, lower));
      } else {
        Skip(1);
        r := Value(if c == '.' then Chars(DotSet(), NoLiteral)
                   else if c == '^' || c == '$' then Zero
                   else LiteralNode(c as int, lower));
      }
    }

    method ParseAlts() returns (r: Outcome<seq<Branch>>)
      requires Valid()
      modifies this
      ensures Follows(r, AltsOf(old(Rest()), lower))
      decreases |Rest()|, 3
    {
      ghost var s := Rest();
      var alts: seq<Branch> := [Branch([])];
      GlueStart(AltsOf(s, lower));
      while pos < |src| && src[pos] != ')'
        invariant Valid() && alts != [] && |Rest()| <= |s|
        invariant Glued(alts, AltsOf(Rest(), lower)) == AltsOf(s, lower)
        decreases |src| - pos
      {
        if src[pos] == '|' {
          BarStep(alts, Rest(), lower);
          alts := alts + [Branch([])];
          Skip(1);
        } else {
          var next := ParseItem(alts);
          if next.Thrown? { return Thrown(next.reason); }
          alts := next.value;
        }
      }
      GlueEnd(alts, Rest());
      return Value(alts);
    }

    /** One turn of the loop of `parseAlts`: an atom with its quantifier joins the last branch. */
    method ParseItem(alts: seq<Branch>) returns (r: Outcome<seq<Branch>>)
      requires Valid() && alts != [] && Rest() != "" && Rest()[0] !in "|)"
      modifies this
      ensures Valid()
      ensures match r
        case Value(more) =>
          more != [] && |Rest()| < |old(Rest())| &&
          Glued(alts, AltsOf(old(Rest()), lower)) == Glued(more, AltsOf(Rest(), lower))
        case Thrown(reason) => AltsOf(old(Rest()), lower) == Bad(reason)
      decreases |Rest()|, 2
    {
      ghost var s := Rest();
      var node := ParseAtom();
      if node.Thrown? { return Thrown(node.reason); }
      var min, max := ParseQuantifier();
      var it := Item(node.value, min, max);
      ItemStep(alts, s, it, Rest(), lower);
      return Value(alts[|alts| - 1 := Branch(alts[|alts| - 1].items + [it])]);
    }

    /** `parse`: the whole text must be read. */
    method Parse() returns (r: Outcome<seq<Branch>>)
      requires Valid() && pos == 0
      modifies this
      ensures Reports(r, TreeOf(src, lower))
    {
      assert Rest() == src;
      r := ParseAlts();
      if r.Value? && pos != |src| { r := Thrown(Trailing); }
    }
  }

  ghost predicate Reports<T>(r: Outcome<T>, p: Parsed<T>) {
    match p
    case Ok(value, _) => r == Value(value)
    case Bad(reason) => r == Thrown(reason)
  }

  lemma GlueStart(r: Parsed<seq<Branch>>)
    requires r.Ok? ==> r.value != []
    ensures Glued([Branch([])], r) == r
  {
    if r.Ok? {
      var start: seq<Branch> := [Branch([])];
      assert start[..0] == [] && [] + r.value[0].items == r.value[0].items;
      assert [] + [Branch(r.value[0].items)] + r.value[1..] == r.value;
    }
  }

  lemma BarStep(alts: seq<Branch>, s: string, lower: nat -> char)
    requires alts != [] && s != "" && s[0] == '|'
    ensures Glued(alts, AltsOf(s, lower)) == Glued(alts + [Branch([])], AltsOf(s[1..], lower))
  {
    var more := AltsOf(s[1..], lower);
    if more.Ok? { GlueBar(alts, more); }
  }

  lemma ItemStep(alts: seq<Branch>, s: string, it: Item, rest: string, lower: nat -> char)
    requires alts != [] && s != "" && s[0] !in "|)"
    requires AtomOf(s, lower).Ok? && AtomOf(s, lower).value == it.node
    requires QuantifierOf(AtomOf(s, lower).rest) == Bounds(it.min, it.max, rest)
    ensures Glued(alts, AltsOf(s, lower)) == Glued(alts[|alts| - 1 := Branch(alts[|alts| - 1].items + [it])], AltsOf(rest, lower))
  {
    var more := AltsOf(rest, lower);
    if more.Ok? { GlueItem(alts, it, more); }
  }

  /** What a quantifier or a group opening leaves is the end of the text it was read from. */
  lemma BracesAreFront(s: string)
    requires Braces(s).Some?
    ensures var rest := Braces(s).value.rest; rest == s[|s| - |rest|..]
  {
  }

  lemma OpenIsFront(s: string)
    requires GroupOpen(s).Ok?
    ensures var rest := GroupOpen(s).rest; rest == s[|s| - |rest|..]
  {
  }
}
