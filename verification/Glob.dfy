/** URL globs (fluxDown/rules/glob.ts): `*` is the only wildcard, everything else is literal. */
module Glob {
  import opened Sequences

  // ----- The pattern language, character by character -----

  /** Reference semantics: a `*` stands for any string, every other character for itself. */
  ghost predicate Wild(p: string, t: string)
    decreases |p|
  {
    if p == "" then t == ""
    else if p[0] == '*' then exists k | 0 <= k <= |t| :: Wild(p[1..], t[k..])
    else t != "" && t[0] == p[0] && Wild(p[1..], t[1..])
  }

  function LowerChar(c: char): char {
    if 'A' <= c <= 'Z' then (c as int + 32) as char else c
  }

  /** ASCII-only lower-casing. */
  function AsciiLower(s: string): (r: string)
    ensures |r| == |s|
    ensures forall i :: 0 <= i < |s| ==> r[i] == LowerChar(s[i])
  {
    if s == "" then "" else [LowerChar(s[0])] + AsciiLower(s[1..])
  }

  // ----- String operations of the host language -----

  predicate OccursAt(t: string, part: string, k: nat) {
    k + |part| <= |t| && t[k..k + |part|] == part
  }

  predicate EndsWith(t: string, part: string) {
    |part| <= |t| && t[|t| - |part|..] == part
  }

  /** First occurrence of `part` at or after `pos`, or -1. */
  function IndexOf(t: string, part: string, pos: nat): (k: int)
    requires pos <= |t|
    ensures k == -1 || (pos <= k && OccursAt(t, part, k))
    ensures forall j :: pos <= j && (k == -1 || j < k) ==> !OccursAt(t, part, j)
    decreases |t| - pos
  {
    if OccursAt(t, part, pos) then pos
    else if pos == |t| then -1
    else IndexOf(t, part, pos + 1)
  }

  predicate Literal(s: string) {
    '*' !in s
  }

  /** `p.split("*")`. */
  function Split(p: string): (parts: seq<string>)
    ensures |parts| >= 1
    ensures forall i :: 0 <= i < |parts| ==> Literal(parts[i])
    ensures |parts| == 1 <==> '*' !in p
  {
    if p == "" then [""]
    else
      var rest := Split(p[1..]);
      if p[0] == '*' then [""] + rest else [[p[0]] + rest[0]] + rest[1..]
  }

  // ----- Cutting a text into the literal pieces -----

  /** The pieces with the given gap texts between them. */
  ghost function Interleave(parts: seq<string>, gaps: seq<string>): string
    requires |parts| == |gaps| + 1
  {
    if gaps == [] then parts[0] else parts[0] + gaps[0] + Interleave(parts[1..], gaps[1..])
  }

  /** `t` is the pieces in order with arbitrary texts at the cuts. */
  ghost predicate CutsInto(parts: seq<string>, t: string)
    requires |parts| >= 1
  {
    exists gaps: seq<string> :: |gaps| + 1 == |parts| && Interleave(parts, gaps) == t
  }

  /** Any text, then the pieces in order, the last one at the end. */
  ghost predicate TailMatches(parts: seq<string>, t: string)
    requires |parts| >= 1
    decreases |parts|
  {
    if |parts| == 1 then EndsWith(t, parts[0])
    else exists k: nat :: OccursAt(t, parts[0], k) && TailMatches(parts[1..], t[k + |parts[0]|..])
  }

  /** The first piece at the start, the rest behind it. */
  ghost predicate PiecesMatch(parts: seq<string>, t: string)
    requires |parts| >= 1
  {
    if |parts| == 1 then t == parts[0]
    else parts[0] <= t && TailMatches(parts[1..], t[|parts[0]|..])
  }

  lemma {:induction false} TailMatchesMore(parts: seq<string>, t: string, k: nat)
    requires |parts| >= 1 && k <= |t| && TailMatches(parts, t[k..])
    ensures TailMatches(parts, t)
  {
    if |parts| > 1 {
      var j: nat :| OccursAt(t[k..], parts[0], j) && TailMatches(parts[1..], t[k..][j + |parts[0]|..]);
      assert t[k..][j..j + |parts[0]|] == t[k + j..k + j + |parts[0]|];
      assert t[k..][j + |parts[0]|..] == t[k + j + |parts[0]|..];
      assert OccursAt(t, parts[0], k + j);
    }
  }

  /** Greedy leftmost search loses nothing: the earliest occurrence leaves the most room. */
  lemma {:induction false} LeftmostSuffices(parts: seq<string>, t: string, first: nat)
    requires |parts| >= 2 && OccursAt(t, parts[0], first)
    requires forall j: nat :: j < first ==> !OccursAt(t, parts[0], j)
    ensures TailMatches(parts, t) <==> TailMatches(parts[1..], t[first + |parts[0]|..])
  {
    if TailMatches(parts, t) {
      var k: nat :| OccursAt(t, parts[0], k) && TailMatches(parts[1..], t[k + |parts[0]|..]);
      assert first <= k;
      assert t[first + |parts[0]|..][k - first..] == t[k + |parts[0]|..];
      TailMatchesMore(parts[1..], t[first + |parts[0]|..], k - first);
    }
  }

  // ----- The pieces and the character language agree -----

  lemma {:induction false} WildLiteralPrefix(w: string, p: string, t: string)
    requires Literal(w)
    ensures Wild(w + p, t) <==> w <= t && Wild(p, t[if |w| <= |t| then |w| else 0..])
  {
    if w == "" {
      assert w + p == p;
    } else {
      assert (w + p)[1..] == w[1..] + p;
      assert (w + p)[0] == w[0];
      if t != "" {
        WildLiteralPrefix(w[1..], p, t[1..]);
        if |w| <= |t| {
          assert t[1..][|w[1..]|..] == t[|w|..];
        }
        if t[0] == w[0] {
          assert w[1..] <= t[1..] <==> w <= t by {
            if w[1..] <= t[1..] {
              assert w == [w[0]] + w[1..] && t == [t[0]] + t[1..];
            }
            if w <= t {
              assert t[1..][..|w| - 1] == t[1..|w|] == w[1..];
            }
          }
        }
      }
    }
  }

  function JoinStar(parts: seq<string>): string
    requires |parts| >= 1
  {
    if |parts| == 1 then parts[0] else parts[0] + "*" + JoinStar(parts[1..])
  }

  lemma {:induction false} JoinSplit(p: string)
    ensures JoinStar(Split(p)) == p
  {
    if p != "" {
      var rest := Split(p[1..]);
      JoinSplit(p[1..]);
      if p[0] == '*' {
        assert Split(p)[1..] == rest;
        assert JoinStar(Split(p)) == "" + "*" + JoinStar(rest);
      } else {
        assert Split(p)[1..] == rest[1..];
        assert p == [p[0]] + p[1..];
      }
    }
  }

  /** A leading star takes any prefix. */
  ghost predicate SomeSuffix(q: string, t: string) {
    exists k :: 0 <= k <= |t| && Wild(q, t[k..])
  }

  lemma WildStar(q: string, t: string)
    ensures Wild("*" + q, t) <==> SomeSuffix(q, t)
  {
    assert ("*" + q)[1..] == q;
  }

  lemma {:induction false} WildTail(parts: seq<string>, t: string)
    requires |parts| >= 1 && forall i :: 0 <= i < |parts| ==> Literal(parts[i])
    ensures TailMatches(parts, t) <==> Wild("*" + JoinStar(parts), t)
    decreases |parts|, 1
  {
    var q := JoinStar(parts);
    WildStar(q, t);
    var w := parts[0];
    if TailMatches(parts, t) {
      var k: nat := |t| - |w|;
      if |parts| > 1 {
        k :| OccursAt(t, w, k) && TailMatches(parts[1..], t[k + |w|..]);
      }
      WildTailAt(parts, t, k);
    }
    if SomeSuffix(q, t) {
      var k :| 0 <= k <= |t| && Wild(q, t[k..]);
      WildTailAt(parts, t, k);
      if |parts| > 1 { assert OccursAt(t, w, k); }
    }
  }

  lemma {:induction false} WildTailAt(parts: seq<string>, t: string, k: nat)
    requires |parts| >= 1 && k <= |t| && forall i :: 0 <= i < |parts| ==> Literal(parts[i])
    ensures Wild(JoinStar(parts), t[k..]) <==>
              if |parts| == 1 then t[k..] == parts[0]
              else OccursAt(t, parts[0], k) && TailMatches(parts[1..], t[k + |parts[0]|..])
    decreases |parts|, 0
  {
    var w := parts[0];
    if |parts| == 1 {
      WildLiteralPrefix(w, "", t[k..]);
      assert w + "" == w;
    } else {
      var tail := "*" + JoinStar(parts[1..]);
      assert JoinStar(parts) == w + tail;
      WildLiteralPrefix(w, tail, t[k..]);
      if |w| <= |t[k..]| {
        assert t[k..][..|w|] == t[k..k + |w|];
        assert t[k..][|w|..] == t[k + |w|..];
        WildTail(parts[1..], t[k + |w|..]);
      }
    }
  }

  lemma {:induction false} PiecesAreThePattern(p: string, t: string)
    ensures PiecesMatch(Split(p), t) <==> Wild(p, t)
  {
    var parts := Split(p);
    JoinSplit(p);
    var w := parts[0];
    if |parts| == 1 {
      WildLiteralPrefix(w, "", t);
      assert w + "" == w;
    } else {
      var tail := JoinStar(parts[1..]);
      assert p == w + ("*" + tail);
      WildLiteralPrefix(w, "*" + tail, t);
      if |w| <= |t| {
        WildTail(parts[1..], t[|w|..]);
      }
    }
  }

  lemma InterleaveCons(parts: seq<string>, g: string, gaps: seq<string>)
    requires |parts| == |gaps| + 2
    ensures Interleave(parts, [g] + gaps) == parts[0] + g + Interleave(parts[1..], gaps)
  {
    assert ([g] + gaps)[1..] == gaps;
  }

  lemma CutAround(t: string, w: string, k: nat, gap: string, rest: string)
    requires OccursAt(t, w, k) && t[k + |w|..] == gap + rest
    ensures t == t[..k] + (w + gap + rest)
  {
    assert t == t[..k] + t[k..k + |w|] + t[k + |w|..];
  }

  lemma {:induction false} TailHasGaps(parts: seq<string>, t: string) returns (g: string, gaps: seq<string>)
    requires |parts| >= 1 && TailMatches(parts, t)
    ensures |gaps| + 1 == |parts| && t == g + Interleave(parts, gaps)
    decreases |parts|
  {
    var w := parts[0];
    if |parts| == 1 {
      g, gaps := t[..|t| - |w|], [];
    } else {
      var k: nat :| OccursAt(t, w, k) && TailMatches(parts[1..], t[k + |w|..]);
      var g1, gaps1 := TailHasGaps(parts[1..], t[k + |w|..]);
      g, gaps := t[..k], [g1] + gaps1;
      InterleaveCons(parts, g1, gaps1);
      CutAround(t, w, k, g1, Interleave(parts[1..], gaps1));
    }
  }

  lemma {:induction false} GapsMakeATail(parts: seq<string>, g: string, gaps: seq<string>)
    requires |gaps| + 1 == |parts|
    ensures TailMatches(parts, g + Interleave(parts, gaps))
    decreases |parts|
  {
    var w := parts[0];
    var t := g + Interleave(parts, gaps);
    if gaps == [] {
      assert t[|t| - |w|..] == w;
    } else {
      var rest := Interleave(parts[1..], gaps[1..]);
      GapsMakeATail(parts[1..], gaps[0], gaps[1..]);
      assert t == g + w + (gaps[0] + rest);
      assert t[|g| + |w|..] == gaps[0] + rest;
      assert OccursAt(t, w, |g|);
    }
  }

  lemma PiecesHaveGaps(parts: seq<string>, t: string) returns (gaps: seq<string>)
    requires |parts| >= 1 && PiecesMatch(parts, t)
    ensures |gaps| + 1 == |parts| && Interleave(parts, gaps) == t
  {
    gaps := [];
    if |parts| > 1 {
      var w := parts[0];
      var g, gaps1 := TailHasGaps(parts[1..], t[|w|..]);
      var rest := Interleave(parts[1..], gaps1);
      InterleaveCons(parts, g, gaps1);
      gaps := [g] + gaps1;
      assert t == w + (g + rest);
      assert w + (g + rest) == w + g + rest;
    }
  }

  lemma GapsMakeTheText(parts: seq<string>, gaps: seq<string>)
    requires |gaps| + 1 == |parts|
    ensures PiecesMatch(parts, Interleave(parts, gaps))
  {
    if |parts| > 1 {
      var w, rest := parts[0], Interleave(parts[1..], gaps[1..]);
      GapsMakeATail(parts[1..], gaps[0], gaps[1..]);
      var t := Interleave(parts, gaps);
      assert t == w + (gaps[0] + rest);
      Behind(w, gaps[0] + rest);
    }
  }

  /** Cutting into pieces is the character language: the two definitions of a glob coincide. */
  lemma CutsAreThePattern(p: string, t: string)
    ensures CutsInto(Split(p), t) <==> Wild(p, t)
  {
    var parts := Split(p);
    PiecesAreThePattern(p, t);
    if PiecesMatch(parts, t) {
      var gaps := PiecesHaveGaps(parts, t);
    }
    if CutsInto(parts, t) {
      var gaps: seq<string> :| |gaps| + 1 == |parts| && Interleave(parts, gaps) == t;
      GapsMakeTheText(parts, gaps);
    }
  }

  // ----- The compiled matcher -----

  /** The last piece is an ending of what is left. */
  lemma LastPiece(w: string, t: string, pos: nat)
    requires pos <= |t|
    ensures TailMatches([w], t[pos..]) <==> w == "" || (|w| <= |t| - pos && EndsWith(t, w))
  {
    if 0 < |w| <= |t| - pos {
      assert t[pos..][|t[pos..]| - |w|..] == t[|t| - |w|..];
    }
  }

  /** The general loop of `compileGlob`, for two or more pieces. */
  method GreedyLoop(parts: seq<string>, t: string) returns (ok: bool)
    requires |parts| >= 2
    ensures ok <==> PiecesMatch(parts, t)
  {
    var n := |parts|;
    var pos := 0;
    var i := 0;
    while i < n
      invariant 0 <= i <= n && 0 <= pos <= |t|
      invariant i == 0 ==> pos == 0
      invariant 0 < i < n ==> (PiecesMatch(parts, t) <==> TailMatches(parts[i..], t[pos..]))
      invariant i == n ==> PiecesMatch(parts, t)
    {
      var part := parts[i];
      if i == 0 {
        if part != "" {
          if !(part <= t) { return false; }
          pos := |part|;
        }
      } else if i == n - 1 {
        assert parts[i..] == [part];
        LastPiece(part, t, pos);
        if part != "" {
          if |t| - pos < |part| || !EndsWith(t, part) { return false; }
        }
      } else {
        assert parts[i..][1..] == parts[i + 1..];
        var idx := IndexOf(t, part, pos);
        MiddlePiece(parts[i..], t, pos);
        if part != "" {
          if idx < 0 { return false; }
          pos := idx + |part|;
        }
      }
      i := i + 1;
    }
    return true;
  }

  /** A middle piece may be placed at its first occurrence from `pos` on. */
  lemma MiddlePiece(parts: seq<string>, t: string, pos: nat)
    requires |parts| >= 2 && pos <= |t|
    ensures var idx := IndexOf(t, parts[0], pos);
            TailMatches(parts, t[pos..]) <==>
              idx >= 0 && TailMatches(parts[1..], t[idx + |parts[0]|..])
  {
    var w := parts[0];
    var idx := IndexOf(t, w, pos);
    forall j: nat | pos + j <= |t|
      ensures OccursAt(t[pos..], w, j) <==> OccursAt(t, w, pos + j)
    {
      if j + |w| <= |t| - pos { assert t[pos..][j..j + |w|] == t[pos + j..pos + j + |w|]; }
    }
    if idx >= 0 {
      LeftmostSuffices(parts, t[pos..], idx - pos);
      assert t[pos..][idx - pos + |w|..] == t[idx + |w|..];
    }
  }

  /**
   * What `compileGlob(pattern)` answers on an already lower-cased text: exact comparison, the
   * two- and three-part shortcuts, or the greedy loop.
   */
  method CompiledGlob(pattern: string, t: string) returns (ok: bool)
    ensures ok <==> Wild(AsciiLower(pattern), t)
  {
    var p := AsciiLower(pattern);
    PiecesAreThePattern(p, t);
    var parts := Split(p);
    var n := |parts|;
    if '*' !in p {
      JoinSplit(p);
      return t == p;
    }
    if n == 2 {
      var head, tail := parts[0], parts[1];
      assert parts[1..] == [tail];
      if head == "" && tail == "" { return true; }
      if head == "" { return EndsWith(t, tail); }
      if tail == "" { return head <= t; }
      assert |head| + |tail| <= |t| ==> t[|head|..][|t| - |head| - |tail|..] == t[|t| - |tail|..];
      return |t| >= |head| + |tail| && head <= t && EndsWith(t, tail);
    }
    if n == 3 && parts[0] == "" && parts[2] == "" && parts[1] != "" {
      var mid := parts[1];
      assert parts[1..][1..] == [""];
      MiddlePiece(parts[1..], t, 0);
      return IndexOf(t, mid, 0) >= 0;
    }
    ok := GreedyLoop(parts, t);
  }

  /** One-shot matching: pattern and URL both lower-cased first. */
  method UrlGlobMatch(pattern: string, url: string) returns (ok: bool)
    ensures ok <==> Wild(AsciiLower(pattern), AsciiLower(url))
  {
    ok := CompiledGlob(pattern, AsciiLower(url));
  }

  // ----- The matcher as a function, for use in rule predicates -----

  predicate GreedyFrom(parts: seq<string>, t: string, pos: nat)
    requires |parts| >= 1 && pos <= |t|
    decreases |parts|
  {
    if |parts| == 1 then |parts[0]| <= |t| - pos && EndsWith(t, parts[0])
    else
      var idx := IndexOf(t, parts[0], pos);
      idx >= 0 && GreedyFrom(parts[1..], t, idx + |parts[0]|)
  }

  lemma {:induction false} GreedyFromIsTail(parts: seq<string>, t: string, pos: nat)
    requires |parts| >= 1 && pos <= |t|
    ensures GreedyFrom(parts, t, pos) <==> TailMatches(parts, t[pos..])
    decreases |parts|
  {
    if |parts| == 1 {
      if |parts[0]| <= |t| - pos { assert t[pos..][|t| - pos - |parts[0]|..] == t[|t| - |parts[0]|..]; }
    } else {
      var idx := IndexOf(t, parts[0], pos);
      MiddlePiece(parts, t, pos);
      if idx >= 0 { GreedyFromIsTail(parts[1..], t, idx + |parts[0]|); }
    }
  }

  predicate GlobMatches(pattern: string, t: string)
    ensures GlobMatches(pattern, t) <==> Wild(AsciiLower(pattern), t)
  {
    var parts := Split(AsciiLower(pattern));
    PiecesAreThePattern(AsciiLower(pattern), t);
    if |parts| == 1 then t == parts[0]
    else
      parts[0] <= t &&
      (GreedyFromIsTail(parts[1..], t, |parts[0]|); GreedyFrom(parts[1..], t, |parts[0]|))
  }
}
