/**
 * Which characters the parts of a written pattern match, said character by character, and what the verdict
 * of the regex checker means in these terms (fluxDown/rules/regex-safety.ts).
 */
module RegexCharacters {
  import opened Numerals
  import opened RegexParser
  import opened RegexSafety
  import opened RegexWriting
  import RegexLanguage

  // ----- Characters a pattern speaks of -----

  predicate Ascii(d: char) {
    d < 128 as char
  }

  /** A letter in its other case, any other character as it is. */
  function OtherCase(d: char): char {
    if 'a' <= d <= 'z' then (d as int - 'a' as int + 'A' as int) as char
    else if 'A' <= d <= 'Z' then (d as int - 'A' as int + 'a' as int) as char
    else d
  }

  predicate IsDigit(d: char) {
    '0' <= d <= '9'
  }

  predicate IsWordChar(d: char) {
    'a' <= d <= 'z' || 'A' <= d <= 'Z' || IsDigit(d) || d == '_'
  }

  /** White space and line ends of ECMAScript, sections 12.2 and 12.3 of ECMA-262. */
  predicate IsBlank(d: char) {
    d in " \t\n\r\U{000B}\U{000C}\U{00A0}\U{1680}\U{2028}\U{2029}\U{202F}\U{205F}\U{3000}\U{FEFF}" ||
    '\U{2000}' <= d <= '\U{200A}'
  }

  predicate IsLineEnd(d: char) {
    d in "\n\r\U{2028}\U{2029}"
  }

  /** The code of the character that is written. */
  function Stands(w: Written): nat {
    match w
    case Raw(c) => c as int
    case Quoted(c) => c as int
    case Control(c) =>
      if c == 'n' then '\n' as int
      else if c == 'r' then '\r' as int
      else if c == 't' then '\t' as int
      else if c == 'b' then 8
      else if c == 'v' then 11
      else if c == 'f' then 12
      else 0
    case Hex(digits) => HexOf(digits)
    case ControlLetter(c) => if 'a' <= c then c as int - 'a' as int + 1 else if 'A' <= c then c as int - 'A' as int + 1 else 0
  }

  predicate InCategory(c: char, d: char) {
    if c == 'd' then IsDigit(d)
    else if c == 'D' then !IsDigit(d)
    else if c == 'w' then IsWordChar(d)
    else if c == 'W' then !IsWordChar(d)
    else if c == 's' then IsBlank(d)
    else !IsBlank(d)
  }

  predicate MemberSays(m: Member, d: char) {
    match m
    case Single(w) => d as int == Stands(w)
    case Span(lo, hi) => Stands(lo) <= d as int <= Stands(hi) || Stands(hi) <= d as int <= Stands(lo)
    case CategoryIn(c) => InCategory(c, d)
  }

  /** Some member says the character, in one case or the other. */
  predicate Listed(members: seq<Member>, d: char) {
    exists m | m in members :: MemberSays(m, d) || MemberSays(m, OtherCase(d))
  }

  predicate OneChar(a: Atom) {
    a.Letter? || a.Dot? || a.Category? || a.Class?
  }

  /** The pattern means this character here, whatever the case of its letters. */
  predicate Says(a: Atom, d: char)
    requires OneChar(a)
  {
    match a
    case Letter(w) => d as int == Stands(w) || OtherCase(d) as int == Stands(w)
    case Dot => !IsLineEnd(d)
    case Category(c) => InCategory(c, d)
    case Class(negated, members) => Listed(members, d) != negated
  }

  // ----- Characters beyond ASCII -----

  predicate CategoryBeyond(c: char) {
    c == 'D' || c == 'W' || c == 's'
  }

  predicate MemberBeyond(m: Member) {
    match m
    case Single(w) => Stands(w) >= 128
    case Span(lo, hi) => Stands(lo) >= 128 || Stands(hi) >= 128
    case CategoryIn(c) => CategoryBeyond(c)
  }

  predicate SomeBeyond(members: seq<Member>) {
    exists m | m in members :: MemberBeyond(m)
  }

  /** The checker takes the atom to match every character beyond ASCII, or none of them. */
  predicate Beyond(a: Atom)
    requires OneChar(a)
  {
    match a
    case Letter(w) => Stands(w) >= 128
    case Dot => true
    case Category(c) => CategoryBeyond(c)
    case Class(negated, members) => SomeBeyond(members) != negated
  }

  // ----- The sets are those characters -----

  lemma CodeStands(w: Written, inClass: bool)
    requires WellWritten(w, inClass)
    ensures CodeOf(w) == Stands(w)
  {
  }

  lemma OneMeans(code: nat, d: char)
    ensures Ascii(d) ==> (One(code)[d as int] <==> d as int == code)
    ensures One(code)[NON_ASCII] <==> code >= 128
  {
  }

  lemma RangeMeans(a: nat, b: nat, d: char)
    ensures Ascii(d) ==> (Range(Low(a, b), High(a, b))[d as int] <==> a <= d as int <= b || b <= d as int <= a)
    ensures Range(Low(a, b), High(a, b))[NON_ASCII] <==> a >= 128 || b >= 128
  {
  }

  lemma CategoryMeans(c: char, d: char)
    requires IsCategory(c)
    ensures Ascii(d) ==> (CategorySet(c)[d as int] <==> InCategory(c, d))
    ensures CategorySet(c)[NON_ASCII] <==> CategoryBeyond(c)
  {
    assert c == 'd' || c == 'D' || c == 'w' || c == 'W' || c == 's' || c == 'S';
    if Ascii(d) {
      BlankMeans(d);
    }
  }

  lemma BlankMeans(d: char)
    requires Ascii(d)
    ensures IsBlank(d) <==> 9 <= d as int <= 13 || d as int == 32
  {
  }

  lemma MemberMeans(m: Member, d: char)
    requires WellMember(m)
    ensures Ascii(d) ==> (MemberSet(m)[d as int] <==> MemberSays(m, d))
    ensures MemberSet(m)[NON_ASCII] <==> MemberBeyond(m)
  {
    match m
    case Single(w) =>
      CodeStands(w, true);
      OneMeans(CodeOf(w), d);
    case Span(lo, hi) =>
      CodeStands(lo, true);
      CodeStands(hi, true);
      RangeMeans(CodeOf(lo), CodeOf(hi), d);
    case CategoryIn(c) =>
      CategoryMeans(c, d);
  }

  lemma {:induction false} MembersMean(members: seq<Member>, d: char)
    requires forall i :: 0 <= i < |members| ==> WellMember(members[i])
    ensures Ascii(d) ==> (MembersSet(members)[d as int] <==> exists m | m in members :: MemberSays(m, d))
    ensures MembersSet(members)[NON_ASCII] <==> SomeBeyond(members)
  {
    if members != [] {
      MemberMeans(members[0], d);
      MembersMean(members[1..], d);
      assert forall m :: m in members <==> m == members[0] || m in members[1..];
    }
  }

  lemma OtherCaseAscii(d: char)
    ensures Ascii(d) <==> Ascii(OtherCase(d))
  {
  }

  lemma FoldMeans(chars: CharSet, d: char)
    ensures Ascii(d) ==> (Fold(chars)[d as int] <==> chars[d as int] || chars[OtherCase(d) as int])
    ensures Fold(chars)[NON_ASCII] <==> chars[NON_ASCII]
  {
  }

  lemma ListedMeans(members: seq<Member>, d: char)
    requires forall i :: 0 <= i < |members| ==> WellMember(members[i])
    ensures Ascii(d) ==> (Fold(MembersSet(members))[d as int] <==> Listed(members, d))
    ensures Fold(MembersSet(members))[NON_ASCII] <==> SomeBeyond(members)
  {
    FoldMeans(MembersSet(members), d);
    MembersMean(members, d);
    if Ascii(d) {
      OtherCaseAscii(d);
      MembersMean(members, OtherCase(d));
    }
  }

  /** The set of an atom holds exactly the ASCII characters that the pattern means, and beyond ASCII all or nothing. */
  lemma SetMeans(a: Atom, d: char, lower: nat -> char)
    requires WellAtom(a) && OneChar(a)
    ensures NodeOf(a, lower).Chars?
    ensures Ascii(d) ==> (NodeOf(a, lower).chars[d as int] <==> Says(a, d))
    ensures NodeOf(a, lower).chars[NON_ASCII] <==> Beyond(a)
  {
    match a
    case Letter(w) =>
      CodeStands(w, false);
      FoldMeans(One(CodeOf(w)), d);
      OneMeans(CodeOf(w), d);
      if Ascii(d) {
        OtherCaseAscii(d);
        OneMeans(CodeOf(w), OtherCase(d));
      }
    case Dot =>
    case Category(c) =>
      CategoryMeans(c, d);
    case Class(_, members) =>
      ListedMeans(members, d);
  }

  /** An atom matches exactly the ASCII characters that it says, and beyond ASCII all or nothing. */
  lemma MatchesWhatItSays(a: Atom, d: char, lower: nat -> char)
    requires WellAtom(a) && OneChar(a)
    ensures RegexLanguage.InNode(NodeOf(a, lower), [d]) <==> if Ascii(d) then Says(a, d) else Beyond(a)
  {
    SetMeans(a, d, lower);
  }

  /** Beyond ASCII nothing is missing when this holds. */
  ghost predicate Covered(a: Atom)
    requires OneChar(a)
  {
    match a
    case Letter(_) => true
    case Dot => true
    case Category(c) => c != 'S'
    case Class(false, members) => SomeBeyond(members) || CategoryIn('S') !in members
    case Class(true, members) => !SomeBeyond(members) || forall d :: !Ascii(d) ==> Listed(members, d)
  }

  ghost predicate MissesNothing(a: Atom, lower: nat -> char)
    requires WellAtom(a) && OneChar(a)
  {
    forall d :: Says(a, d) ==> RegexLanguage.InNode(NodeOf(a, lower), [d])
  }

  /**
   * A set misses a character of its atom exactly when it stands for no character beyond ASCII although the atom
   * means one: `\S`, alone or in a class, and negated classes that name some but not all of them.
   */
  lemma MissesNothingExactly(a: Atom, lower: nat -> char)
    requires WellAtom(a) && OneChar(a)
    ensures MissesNothing(a, lower) <==> Covered(a)
  {
    var e := '\U{00E9}';
    assert !Ascii(e) && !IsBlank(e) && OtherCase(e) == e;
    MatchesWhatItSays(a, e, lower);
    if Covered(a) {
      forall d | Says(a, d) ensures RegexLanguage.InNode(NodeOf(a, lower), [d]) {
        MatchesWhatItSays(a, d, lower);
        if !Ascii(d) { CoveredReaches(a, d); }
      }
    } else if a.Class? && a.negated {
      var d :| !Ascii(d) && !Listed(a.members, d);
      assert Says(a, d);
      MatchesWhatItSays(a, d, lower);
    } else if a.Class? {
      assert MemberSays(CategoryIn('S'), e);
      assert Says(a, e);
    } else {
      assert Says(a, e);
    }
  }

  lemma MemberReaches(m: Member, d: char)
    requires WellMember(m) && !Ascii(d) && MemberSays(m, d) && m != CategoryIn('S')
    ensures MemberBeyond(m)
  {
    match m
    case Single(_) =>
    case Span(_, _) =>
    case CategoryIn(c) =>
      assert c == 'd' || c == 'D' || c == 'w' || c == 'W' || c == 's';
  }

  lemma CoveredReaches(a: Atom, d: char)
    requires WellAtom(a) && OneChar(a) && Covered(a) && !Ascii(d) && Says(a, d)
    ensures Beyond(a)
  {
    assert OtherCase(d) == d;
    match a
    case Letter(_) =>
    case Dot =>
    case Category(c) =>
      assert c == 'd' || c == 'D' || c == 'w' || c == 'W' || c == 's';
    case Class(negated, members) =>
      if !negated && CategoryIn('S') !in members {
        var m :| m in members && MemberSays(m, d);
        MemberReaches(m, d);
      }
  }

  // ----- Neighbouring repeats -----

  /** Repeated without bound; an upper bound above 100 counts as none. */
  predicate Endless(q: Quant) {
    match q
    case Star => true
    case Plus => true
    case AtLeast(_) => true
    case Times(n) => n > 100
    case Between(_, hi) => hi > 100
    case _ => false
  }

  predicate CanSkip(q: Quant) {
    match q
    case Star => true
    case Opt => true
    case Times(n) => n == 0
    case AtLeast(n) => n == 0
    case Between(lo, _) => lo == 0
    case _ => false
  }

  /** Does not keep the repeats on its two sides apart. */
  predicate LetsThrough(p: RegexWriting.Piece) {
    Endless(p.quant) || CanSkip(p.quant) || p.atom.Edge? || p.atom.Boundary?
  }

  /** Two endless pieces with nothing between them that must take a character. */
  ghost predicate Neighbours(pieces: seq<RegexWriting.Piece>, i: nat, j: nat) {
    i < j < |pieces| && Endless(pieces[i].quant) && Endless(pieces[j].quant) &&
    forall k :: i < k < j ==> LetsThrough(pieces[k])
  }

  /** May begin with, end in or be this character: groups and positions count as everything. */
  predicate Touches(a: Atom, d: char) {
    OneChar(a) ==> Says(a, d)
  }

  predicate TouchesBeyond(a: Atom) {
    OneChar(a) ==> Beyond(a)
  }

  /** No ASCII character is common to both, and not both reach beyond ASCII. */
  ghost predicate Apart(a: Atom, b: Atom) {
    (forall d :: Ascii(d) ==> !(Touches(a, d) && Touches(b, d))) && !(TouchesBeyond(a) && TouchesBeyond(b))
  }

  ghost predicate NeighboursApart(pieces: seq<RegexWriting.Piece>) {
    forall i: nat, j: nat :: Neighbours(pieces, i, j) ==> Apart(pieces[i].atom, pieces[j].atom)
  }

  lemma ReachMeans(p: RegexWriting.Piece, d: char, lower: nat -> char)
    requires WellPiece(p)
    ensures Ascii(d) ==> (ReachSet(ItemOf(p, lower))[d as int] <==> Touches(p.atom, d))
    ensures ReachSet(ItemOf(p, lower))[NON_ASCII] <==> TouchesBeyond(p.atom)
  {
    if OneChar(p.atom) { SetMeans(p.atom, d, lower); }
  }

  lemma CommonIndex(p: RegexWriting.Piece, q: RegexWriting.Piece, lower: nat -> char, i: nat)
    requires WellPiece(p) && WellPiece(q)
    requires i < SET_SIZE && ReachSet(ItemOf(p, lower))[i] && ReachSet(ItemOf(q, lower))[i]
    ensures !Apart(p.atom, q.atom)
  {
    var d := if i < NON_ASCII then i as char else 'a';
    ReachMeans(p, d, lower);
    ReachMeans(q, d, lower);
    assert i < NON_ASCII ==> Ascii(d) && d as int == i;
  }

  lemma CommonChar(p: RegexWriting.Piece, q: RegexWriting.Piece, lower: nat -> char, d: char)
    requires WellPiece(p) && WellPiece(q) && Ascii(d) && Touches(p.atom, d) && Touches(q.atom, d)
    ensures Overlap(ReachSet(ItemOf(p, lower)), ReachSet(ItemOf(q, lower)))
  {
    ReachMeans(p, d, lower);
    ReachMeans(q, d, lower);
    assert 0 <= d as int < SET_SIZE;
  }

  lemma CommonBeyond(p: RegexWriting.Piece, q: RegexWriting.Piece, lower: nat -> char)
    requires WellPiece(p) && WellPiece(q) && TouchesBeyond(p.atom) && TouchesBeyond(q.atom)
    ensures Overlap(ReachSet(ItemOf(p, lower)), ReachSet(ItemOf(q, lower)))
  {
    ReachMeans(p, 'a', lower);
    ReachMeans(q, 'a', lower);
  }

  lemma OverlapMeans(p: RegexWriting.Piece, q: RegexWriting.Piece, lower: nat -> char)
    requires WellPiece(p) && WellPiece(q)
    ensures Overlap(ReachSet(ItemOf(p, lower)), ReachSet(ItemOf(q, lower))) <==> !Apart(p.atom, q.atom)
  {
    var a, b := ReachSet(ItemOf(p, lower)), ReachSet(ItemOf(q, lower));
    if Overlap(a, b) {
      var i :| 0 <= i < SET_SIZE && a[i] && b[i];
      CommonIndex(p, q, lower, i);
    }
    if !Apart(p.atom, q.atom) {
      if TouchesBeyond(p.atom) && TouchesBeyond(q.atom) {
        CommonBeyond(p, q, lower);
      } else {
        var d :| Ascii(d) && Touches(p.atom, d) && Touches(q.atom, d);
        CommonChar(p, q, lower, d);
      }
    }
  }

  lemma {:induction false} ItemsAre(pieces: seq<RegexWriting.Piece>, lower: nat -> char)
    requires WellPieces(pieces)
    ensures |ItemsOf(pieces, lower)| == |pieces|
    ensures forall k :: 0 <= k < |pieces| ==> WellPiece(pieces[k]) && ItemsOf(pieces, lower)[k] == ItemOf(pieces[k], lower)
    decreases |pieces|
  {
    if pieces != [] {
      ItemsAre(pieces[1..], lower);
      assert forall k :: 0 < k < |pieces| ==> pieces[k] == pieces[1..][k - 1];
    }
  }

  lemma QuantMeans(p: RegexWriting.Piece, lower: nat -> char)
    requires WellPiece(p)
    ensures ItemOf(p, lower).max.Infinite? <==> Endless(p.quant)
    ensures Transparent(ItemOf(p, lower)) <==> LetsThrough(p)
  {
  }

  /** Sets of neighbouring repeats are disjoint exactly when the pieces are apart by their characters. */
  lemma NeighboursMean(pieces: seq<RegexWriting.Piece>, lower: nat -> char)
    requires WellPieces(pieces)
    ensures NoAdjacentOverlap(ItemsOf(pieces, lower)) <==> NeighboursApart(pieces)
  {
    var items := ItemsOf(pieces, lower);
    ItemsAre(pieces, lower);
    forall k | 0 <= k < |pieces|
      ensures items[k].max.Infinite? <==> Endless(pieces[k].quant)
      ensures Transparent(items[k]) <==> LetsThrough(pieces[k])
    {
      QuantMeans(pieces[k], lower);
    }
    forall i: nat, j: nat | i < j < |pieces|
      ensures Adjacent(items, i, j) <==> Neighbours(pieces, i, j)
      ensures Overlap(ReachSet(items[i]), ReachSet(items[j])) <==> !Apart(pieces[i].atom, pieces[j].atom)
    {
      OverlapMeans(pieces[i], pieces[j], lower);
    }
  }

  // ----- The verdict -----

  /** Every alternative of the pattern, at any depth. */
  ghost function AllAlts(alts: seq<Alt>): set<Alt>
    decreases alts
  {
    if alts == [] then {} else {alts[0]} + AltsBelow(alts[0].pieces) + AllAlts(alts[1..])
  }

  ghost function AltsBelow(pieces: seq<RegexWriting.Piece>): set<Alt>
    decreases pieces
  {
    if pieces == [] then {} else PieceAlts(pieces[0]) + AltsBelow(pieces[1..])
  }

  ghost function PieceAlts(p: RegexWriting.Piece): set<Alt>
    decreases p
  {
    match p
    case Piece(atom, _, _) => AtomAlts(atom)
  }

  ghost function AtomAlts(a: Atom): set<Alt>
    decreases a
  {
    match a
    case Grouped(_, alts) => AllAlts(alts)
    case _ => {}
  }

  /** Taken more than once. */
  predicate Repeated(q: Quant) {
    match q
    case Times(n) => n > 1
    case Between(_, hi) => hi > 1
    case Once => false
    case Opt => false
    case _ => true
  }

  predicate ExactlyOnce(q: Quant) {
    q == Once || q == RegexWriting.Times(1) || q == Between(1, 1)
  }

  ghost predicate NothingRepeated(alts: set<Alt>) {
    forall a, p :: a in alts && p in a.pieces ==> !Repeated(p.quant)
  }

  /** A word of single characters. */
  predicate IsWord(a: Alt) {
    a.pieces != [] && forall k :: 0 <= k < |a.pieces| ==> a.pieces[k].atom.Letter? && ExactlyOnce(a.pieces[k].quant)
  }

  /** Its characters, lower-cased by the host. */
  function WordText(a: Alt, lower: nat -> char): string
    requires IsWord(a)
  {
    seq(|a.pieces|, k requires 0 <= k < |a.pieces| => lower(Stands(a.pieces[k].atom.w)))
  }

  /** Words of which none begins another. */
  ghost predicate Unambiguous(alts: seq<Alt>, lower: nat -> char) {
    (forall i :: 0 <= i < |alts| ==> IsWord(alts[i])) &&
    forall i, j :: 0 <= i < |alts| && 0 <= j < |alts| && i != j ==> !(WordText(alts[i], lower) <= WordText(alts[j], lower))
  }

  /**
   * An endless group has no repeat inside, at any depth; a repeated one with several alternatives has words
   * for them of which none begins another.
   */
  ghost predicate GroupFine(p: RegexWriting.Piece, lower: nat -> char) {
    p.atom.Grouped? ==>
      (Endless(p.quant) ==> NothingRepeated(AllAlts(p.atom.alts))) &&
      (Repeated(p.quant) && |p.atom.alts| > 1 ==> Unambiguous(p.atom.alts, lower))
  }

  ghost predicate AltFine(a: Alt, lower: nat -> char) {
    (forall p :: p in a.pieces ==> GroupFine(p, lower)) && NeighboursApart(a.pieces)
  }

  ghost predicate AllFine(alts: set<Alt>, lower: nat -> char) {
    forall a :: a in alts ==> AltFine(a, lower)
  }

  // ----- Alternatives and branches -----

  ghost predicate RendersAs(a: Alt, b: Branch, lower: nat -> char) {
    WellPieces(a.pieces) && b == Branch(ItemsOf(a.pieces, lower))
  }

  /** The branches are exactly those of the alternatives. */
  ghost predicate Renders(alts: set<Alt>, branches: set<Branch>, lower: nat -> char) {
    (forall a :: a in alts ==> exists b :: b in branches && RendersAs(a, b, lower)) &&
    (forall b :: b in branches ==> exists a :: a in alts && RendersAs(a, b, lower))
  }

  lemma RendersBoth(xs: set<Alt>, bs: set<Branch>, ys: set<Alt>, cs: set<Branch>, lower: nat -> char)
    requires Renders(xs, bs, lower) && Renders(ys, cs, lower)
    ensures Renders(xs + ys, bs + cs, lower)
  {
  }

  lemma RendersOne(a: Alt, lower: nat -> char)
    requires WellPieces(a.pieces)
    ensures Renders({a}, {Branch(ItemsOf(a.pieces, lower))}, lower)
  {
    assert RendersAs(a, Branch(ItemsOf(a.pieces, lower)), lower);
  }

  lemma {:induction false} AltsRender(alts: seq<Alt>, lower: nat -> char)
    requires WellAlts(alts)
    ensures Renders(AllAlts(alts), AllBranches(BranchesOf(alts, lower)), lower)
    decreases alts
  {
    if alts != [] {
      var a, rest := alts[0], alts[1..];
      var items := ItemsOf(a.pieces, lower);
      RendersOne(a, lower);
      PiecesRender(a.pieces, lower);
      AltsRender(rest, lower);
      RendersBoth({a}, {Branch(items)}, AltsBelow(a.pieces), BranchesBelow(items), lower);
      RendersBoth({a} + AltsBelow(a.pieces), {Branch(items)} + BranchesBelow(items),
                  AllAlts(rest), AllBranches(BranchesOf(rest, lower)), lower);
      assert BranchesOf(alts, lower)[1..] == BranchesOf(rest, lower) && BranchesOf(alts, lower)[0] == Branch(items);
    }
  }

  lemma {:induction false} PiecesRender(pieces: seq<RegexWriting.Piece>, lower: nat -> char)
    requires WellPieces(pieces)
    ensures Renders(AltsBelow(pieces), BranchesBelow(ItemsOf(pieces, lower)), lower)
    decreases pieces
  {
    if pieces != [] {
      PieceRenders(pieces[0], lower);
      PiecesRender(pieces[1..], lower);
      RendersBoth(PieceAlts(pieces[0]), ItemBranches(ItemOf(pieces[0], lower)),
                  AltsBelow(pieces[1..]), BranchesBelow(ItemsOf(pieces[1..], lower)), lower);
      assert ItemsOf(pieces, lower)[1..] == ItemsOf(pieces[1..], lower);
    }
  }

  lemma {:induction false} PieceRenders(p: RegexWriting.Piece, lower: nat -> char)
    requires WellPiece(p)
    ensures Renders(PieceAlts(p), ItemBranches(ItemOf(p, lower)), lower)
    decreases p
  {
    match p
    case Piece(atom, _, _) => AtomRenders(atom, lower);
  }

  lemma {:induction false} AtomRenders(a: Atom, lower: nat -> char)
    requires WellAtom(a)
    ensures Renders(AtomAlts(a), match NodeOf(a, lower) { case Group(alts) => AllBranches(alts) case _ => {} }, lower)
    decreases a
  {
    match a
    case Grouped(_, alts) => AltsRender(alts, lower);
    case _ =>
  }

  lemma {:induction false} BranchesAre(alts: seq<Alt>, lower: nat -> char)
    requires WellAlts(alts)
    ensures |BranchesOf(alts, lower)| == |alts|
    ensures forall k :: 0 <= k < |alts| ==> RendersAs(alts[k], BranchesOf(alts, lower)[k], lower)
    decreases |alts|
  {
    if alts != [] {
      BranchesAre(alts[1..], lower);
      assert forall k :: 0 < k < |alts| ==> alts[k] == alts[1..][k - 1];
    }
  }

  lemma RepeatMeans(p: RegexWriting.Piece, lower: nat -> char)
    requires WellPiece(p)
    ensures Repeats(ItemOf(p, lower).max) <==> Repeated(p.quant)
    ensures SingleLiteral(ItemOf(p, lower)) <==> p.atom.Letter? && ExactlyOnce(p.quant)
    ensures p.atom.Letter? ==> ItemOf(p, lower).node.Chars? && ItemOf(p, lower).node.lit == Exactly(lower(Stands(p.atom.w)))
  {
    if p.atom.Letter? { CodeStands(p.atom.w, false); }
  }

  lemma BranchRepeats(a: Alt, b: Branch, lower: nat -> char)
    requires RendersAs(a, b, lower)
    ensures (forall it :: it in b.items ==> !Repeats(it.max)) <==> (forall p :: p in a.pieces ==> !Repeated(p.quant))
  {
    ItemsAre(a.pieces, lower);
    forall k | 0 <= k < |a.pieces| ensures Repeats(b.items[k].max) <==> Repeated(a.pieces[k].quant) {
      RepeatMeans(a.pieces[k], lower);
    }
    assert forall k :: 0 <= k < |a.pieces| ==> a.pieces[k] in a.pieces && b.items[k] in b.items;
  }

  lemma RepeatsMean(alts: set<Alt>, branches: set<Branch>, lower: nat -> char)
    requires Renders(alts, branches, lower)
    ensures NoneRepeat(branches) <==> NothingRepeated(alts)
  {
    if NoneRepeat(branches) {
      forall a, p | a in alts && p in a.pieces ensures !Repeated(p.quant) {
        var b :| b in branches && RendersAs(a, b, lower);
        BranchRepeats(a, b, lower);
      }
    }
    if NothingRepeated(alts) {
      forall b, it | b in branches && it in b.items ensures !Repeats(it.max) {
        var a :| a in alts && RendersAs(a, b, lower);
        BranchRepeats(a, b, lower);
      }
    }
  }

  lemma WordMeans(a: Alt, b: Branch, lower: nat -> char)
    requires RendersAs(a, b, lower)
    ensures PlainWord(b) <==> IsWord(a)
    ensures IsWord(a) ==> Word(b) == WordText(a, lower)
  {
    ItemsAre(a.pieces, lower);
    forall k | 0 <= k < |a.pieces|
      ensures SingleLiteral(b.items[k]) <==> a.pieces[k].atom.Letter? && ExactlyOnce(a.pieces[k].quant)
      ensures a.pieces[k].atom.Letter? ==>
        b.items[k].node.Chars? && b.items[k].node.lit == Exactly(lower(Stands(a.pieces[k].atom.w)))
    {
      RepeatMeans(a.pieces[k], lower);
    }
  }

  lemma WordsMean(alts: seq<Alt>, lower: nat -> char)
    requires WellAlts(alts)
    ensures PrefixFreeLiterals(BranchesOf(alts, lower)) <==> Unambiguous(alts, lower)
  {
    var branches := BranchesOf(alts, lower);
    BranchesAre(alts, lower);
    forall k | 0 <= k < |alts|
      ensures PlainWord(branches[k]) <==> IsWord(alts[k])
      ensures IsWord(alts[k]) ==> Word(branches[k]) == WordText(alts[k], lower)
    {
      WordMeans(alts[k], branches[k], lower);
    }
    if AllPlain(branches) {
      assert forall k :: 0 <= k < |alts| ==> branches[k] in branches && IsWord(alts[k]);
      var ws := Words(branches);
      assert forall k :: 0 <= k < |alts| ==> ws[k] == WordText(alts[k], lower);
    }
  }

  lemma GroupMeans(p: RegexWriting.Piece, lower: nat -> char)
    requires WellPiece(p)
    ensures GroupProblem(ItemOf(p, lower)).None? <==> GroupFine(p, lower)
  {
    if p.atom.Grouped? {
      var alts := p.atom.alts;
      AltsRender(alts, lower);
      RepeatsMean(AllAlts(alts), AllBranches(BranchesOf(alts, lower)), lower);
      RepeatFreeTree(BranchesOf(alts, lower));
      WordsMean(alts, lower);
      BranchesAre(alts, lower);
      RepeatMeans(p, lower);
      QuantMeans(p, lower);
    }
  }

  lemma AltMeans(a: Alt, b: Branch, lower: nat -> char)
    requires RendersAs(a, b, lower)
    ensures BranchSafe(b) <==> AltFine(a, lower)
  {
    ItemsAre(a.pieces, lower);
    NeighboursMean(a.pieces, lower);
    forall k | 0 <= k < |a.pieces| ensures GroupProblem(b.items[k]).None? <==> GroupFine(a.pieces[k], lower) {
      GroupMeans(a.pieces[k], lower);
    }
    assert forall k :: 0 <= k < |a.pieces| ==> a.pieces[k] in a.pieces && b.items[k] in b.items;
  }

  lemma AltsMean(alts: seq<Alt>, lower: nat -> char)
    requires WellAlts(alts)
    ensures AllSafe(AllBranches(BranchesOf(alts, lower))) <==> AllFine(AllAlts(alts), lower)
  {
    var branches := AllBranches(BranchesOf(alts, lower));
    AltsRender(alts, lower);
    if AllSafe(branches) {
      forall a | a in AllAlts(alts) ensures AltFine(a, lower) {
        var b :| b in branches && RendersAs(a, b, lower);
        AltMeans(a, b, lower);
      }
    }
    if AllFine(AllAlts(alts), lower) {
      forall b | b in branches ensures BranchSafe(b) {
        var a :| a in AllAlts(alts) && RendersAs(a, b, lower);
        AltMeans(a, b, lower);
      }
    }
  }

  /**
   * A written pattern passes exactly when, in every alternative at any depth, neighbouring repeats have no
   * character in common and repeated groups are fine, and the repeats stay within the limit.
   */
  lemma VerdictByCharacters(alts: seq<Alt>, lower: nat -> char)
    requires alts != [] && WellAlts(alts)
    ensures var p := TreeOf(WriteAlts(alts), lower);
      p.Ok? &&
      (AnalyzeAlts(p.value, 0).Pass? <==>
         AllFine(AllAlts(alts), lower) && Weight(BranchesOf(alts, lower)) <= MAX_UNBOUNDED_QUANTIFIERS)
  {
    WrittenVerdict(alts, lower);
    AltsMean(alts, lower);
  }

  ghost predicate Accepted(alts: seq<Alt>, lower: nat -> char) {
    var p := TreeOf(WriteAlts(alts), lower);
    p.Ok? && AnalyzeAlts(p.value, 0).Pass?
  }

  lemma WellInside(alts: seq<Alt>, a: Alt, lower: nat -> char)
    requires WellAlts(alts) && a in AllAlts(alts)
    ensures forall k :: 0 <= k < |a.pieces| ==> WellPiece(a.pieces[k])
  {
    AltsRender(alts, lower);
    var b :| b in AllBranches(BranchesOf(alts, lower)) && RendersAs(a, b, lower);
    ItemsAre(a.pieces, lower);
  }

  /** In an accepted pattern no ASCII character belongs to two neighbouring repeats, at any depth. */
  lemma NothingShared(alts: seq<Alt>, lower: nat -> char, a: Alt, i: nat, j: nat, d: char)
    requires alts != [] && WellAlts(alts) && Accepted(alts, lower)
    requires a in AllAlts(alts) && Neighbours(a.pieces, i, j)
    requires Ascii(d) || (OneChar(a.pieces[i].atom) && Covered(a.pieces[i].atom) &&
                          OneChar(a.pieces[j].atom) && Covered(a.pieces[j].atom))
    ensures !(Touches(a.pieces[i].atom, d) && Touches(a.pieces[j].atom, d))
  {
    VerdictByCharacters(alts, lower);
    assert AltFine(a, lower);
    WellInside(alts, a, lower);
    var x, y := a.pieces[i].atom, a.pieces[j].atom;
    assert Apart(x, y);
    assert WellPiece(a.pieces[i]) && WellPiece(a.pieces[j]);
    if !Ascii(d) && Says(x, d) && Says(y, d) {
      CoveredReaches(x, d);
      CoveredReaches(y, d);
      assert false;
    }
  }

  // ----- What the sets miss -----

  /** The pattern of two starred atoms, one behind the other. */
  function Pair(a: Atom, b: Atom): seq<Alt> {
    [Alt([RegexWriting.Piece(a, Star, false), RegexWriting.Piece(b, Star, false)])]
  }

  lemma PairWell(a: Atom, b: Atom)
    requires WellAtom(a) && WellAtom(b)
    ensures WellAlts(Pair(a, b)) && Pair(a, b)[1..] == []
  {
    var pieces := Pair(a, b)[0].pieces;
    assert pieces[1..] == [pieces[1]] && pieces[1..][1..] == [];
    assert WellPiece(pieces[0]) && WellPiece(pieces[1]);
    assert WellPieces(pieces);
  }

  /** Two starred characters pass exactly when they are apart. */
  lemma PairExactly(a: Atom, b: Atom, lower: nat -> char)
    requires WellAtom(a) && WellAtom(b) && OneChar(a) && OneChar(b)
    ensures WellAlts(Pair(a, b))
    ensures Accepted(Pair(a, b), lower) <==> Apart(a, b)
  {
    var alts := Pair(a, b);
    var pieces := alts[0].pieces;
    PairWell(a, b);
    VerdictByCharacters(alts, lower);
    PairAlts(a, b);
    PairWeight(a, b, lower);
    ItemsAre(pieces, lower);
    assert AltFine(alts[0], lower) <==> NeighboursApart(pieces);
    assert Neighbours(pieces, 0, 1);
    assert NeighboursApart(pieces) <==> Apart(a, b) by {
      assert forall i: nat, j: nat :: Neighbours(pieces, i, j) ==> i == 0 && j == 1;
    }
  }

  lemma PairAlts(a: Atom, b: Atom)
    requires OneChar(a) && OneChar(b)
    ensures AllAlts(Pair(a, b)) == {Pair(a, b)[0]}
  {
    var alts := Pair(a, b);
    var pieces := alts[0].pieces;
    var rest := pieces[1..];
    assert rest == [pieces[1]] && rest[1..] == [] && alts[1..] == [];
    assert PieceAlts(pieces[0]) == {} && PieceAlts(rest[0]) == {};
    assert AltsBelow(rest) == {};
    assert AltsBelow(pieces) == {};
    assert AllAlts(alts[1..]) == {};
  }

  lemma PairWeight(a: Atom, b: Atom, lower: nat -> char)
    requires WellAtom(a) && WellAtom(b) && OneChar(a) && OneChar(b) && WellAlts(Pair(a, b))
    ensures Weight(BranchesOf(Pair(a, b), lower)) == 2
  {
    var alts := Pair(a, b);
    var items := ItemsOf(alts[0].pieces, lower);
    ItemsAre(alts[0].pieces, lower);
    var rest, branches := items[1..], BranchesOf(alts, lower);
    assert rest == [items[1]] && rest[1..] == [];
    SetMeans(a, 'a', lower);
    SetMeans(b, 'a', lower);
    assert ItemWeight(items[0]) == 1 && ItemWeight(rest[0]) == 1;
    assert ItemsWeight(rest) == 1;
    assert ItemsWeight(items) == 2;
    assert alts[1..] == [] && BranchesOf(alts[1..], lower) == [];
    assert branches == [Branch(items)] + [];
    assert branches[1..] == [] && Weight(branches[1..]) == 0;
  }

  ghost predicate Strangers(a: Atom, b: Atom)
    requires OneChar(a) && OneChar(b)
  {
    forall d :: !(Says(a, d) && Says(b, d))
  }

  /** Next to `a`, an accepted repeat whose own set misses nothing has no character in common with it. */
  ghost predicate Watched(a: Atom, lower: nat -> char)
    requires WellAtom(a) && OneChar(a)
  {
    forall b :: WellAtom(b) && OneChar(b) && Covered(b) && Accepted(Pair(a, b), lower) ==> Strangers(a, b)
  }

  /** Overlapping neighbours are all rejected exactly when the set of the atom misses nothing. */
  lemma WatchedExactly(a: Atom, lower: nat -> char)
    requires WellAtom(a) && OneChar(a)
    ensures Watched(a, lower) <==> Covered(a)
  {
    if Covered(a) {
      forall b | WellAtom(b) && OneChar(b) && Covered(b) && Accepted(Pair(a, b), lower)
        ensures Strangers(a, b)
      {
        PairExactly(a, b, lower);
        ApartStrangers(a, b);
      }
    } else {
      var b := MissedNeighbour(a, lower);
    }
  }

  /** The missed character itself, starred, passes as a neighbour. */
  lemma MissedNeighbour(a: Atom, lower: nat -> char) returns (b: Atom)
    requires WellAtom(a) && OneChar(a) && !Covered(a)
    ensures WellAtom(b) && OneChar(b) && Covered(b) && Accepted(Pair(a, b), lower) && !Strangers(a, b)
  {
    MissesNothingExactly(a, lower);
    var d :| Says(a, d) && !RegexLanguage.InNode(NodeOf(a, lower), [d]);
    MatchesWhatItSays(a, d, lower);
    b := Letter(Raw(d));
    LetterBeyond(d);
    PairExactly(a, b, lower);
  }

  lemma LetterBeyond(d: char)
    requires !Ascii(d)
    ensures WellAtom(Letter(Raw(d))) && Says(Letter(Raw(d)), d)
    ensures forall c :: Ascii(c) ==> !Says(Letter(Raw(d)), c)
  {
    assert forall c :: c in SPECIAL ==> Ascii(c);
    forall c | Ascii(c) ensures !Says(Letter(Raw(d)), c) { OtherCaseAscii(c); }
  }

  lemma ApartStrangers(a: Atom, b: Atom)
    requires WellAtom(a) && WellAtom(b) && OneChar(a) && OneChar(b) && Covered(a) && Covered(b) && Apart(a, b)
    ensures Strangers(a, b)
  {
    forall d ensures !(Says(a, d) && Says(b, d)) {
      if !Ascii(d) && Says(a, d) && Says(b, d) {
        CoveredReaches(a, d);
        CoveredReaches(b, d);
        assert false;
      }
    }
  }

  /** `\S*` in front of a starred e with an acute accent passes, though both match that letter. */
  lemma OverlapMissed(lower: nat -> char)
    ensures var a, b, e := Category('S'), Letter(Raw('\U{00E9}')), '\U{00E9}';
      Accepted(Pair(a, b), lower) && Says(a, e) && Says(b, e)
  {
    var a, e := Category('S'), '\U{00E9}';
    LetterBeyond(e);
    assert !IsBlank(e);
    PairExactly(a, Letter(Raw(e)), lower);
  }
}
