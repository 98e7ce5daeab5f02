/** Content-Disposition parameters (fluxDown/utils/filename.ts): splitting at `;` and quoted strings. */
module Params {
  import opened Sequences

  datatype Param = Param(name: string, value: string)

  predicate Escapable(c: char) {
    c == '"' || c == '\\'
  }

  predicate Blank(c: char) {
    c == ' ' || c == '\t'
  }

  // ----- Splitting -----

  /** `w` in front of the first piece. */
  function Prepend(w: string, ps: seq<string>): (r: seq<string>)
    requires ps != []
    ensures |r| == |ps|
  {
    [w + ps[0]] + ps[1..]
  }

  /** An escape pair starts here; only inside quotes, and only before `"` or `\`. */
  predicate EscapePair(s: string, i: nat) {
    i + 1 < |s| && s[i] == '\\' && Escapable(s[i + 1])
  }

  /** The pieces of `s`, starting inside (`quoted`) or outside a quoted string. */
  function Pieces(s: string, quoted: bool): (ps: seq<string>)
    ensures ps != []
    decreases |s|
  {
    if s == "" then [""]
    else if quoted && EscapePair(s, 0) then Prepend(s[..2], Pieces(s[2..], quoted))
    else
      var quoted' := if s[0] == '"' then !quoted else quoted;
      if s[0] == ';' && !quoted' then [""] + Pieces(s[1..], quoted')
      else Prepend(s[..1], Pieces(s[1..], quoted'))
  }

  method SplitParams(s: string) returns (out: seq<string>)
    ensures out == Pieces(s, false)
  {
    out := [];
    var cur, inQuote := "", false;
    var i := 0;
    PrependNothing(Pieces(s, false));
    assert s[0..] == s;
    while i < |s|
      invariant 0 <= i <= |s|
      invariant Pieces(s, false) == out + Prepend(cur, Pieces(s[i..], inQuote))
    {
      var c := s[i];
      ghost var rest := s[i..];
      assert EscapePair(rest, 0) <==> EscapePair(s, i);
      if inQuote && EscapePair(s, i) {
        assert rest[2..] == s[i + 2..] && rest[..2] == [c] + [s[i + 1]];
        PrependTwice(cur, rest[..2], Pieces(s[i + 2..], inQuote));
        cur := cur + ([c] + [s[i + 1]]);
        i := i + 2;
        continue;
      }
      assert rest[1..] == s[i + 1..] && rest[..1] == [c];
      if c == '"' { inQuote := !inQuote; }
      if c == ';' && !inQuote {
        PrependCut(cur, Pieces(s[i + 1..], inQuote));
        PrependNothing(Pieces(s[i + 1..], inQuote));
        out := out + [cur];
        cur := "";
      } else {
        PrependTwice(cur, rest[..1], Pieces(s[i + 1..], inQuote));
        cur := cur + [c];
      }
      i := i + 1;
    }
    PrependCut(cur, []);
    out := out + [cur];
  }

  lemma PrependTwice(v: string, w: string, ps: seq<string>)
    requires ps != []
    ensures Prepend(v, Prepend(w, ps)) == Prepend(v + w, ps)
  {
    assert v + (w + ps[0]) == (v + w) + ps[0];
  }

  lemma PrependNothing(ps: seq<string>)
    requires ps != []
    ensures Prepend("", ps) == ps
  {
    assert "" + ps[0] == ps[0];
  }

  lemma PrependCut(w: string, ps: seq<string>)
    ensures Prepend(w, [""] + ps) == [w] + ps
  {
    assert w + "" == w;
    assert ([""] + ps)[1..] == ps;
  }

  function Join(ps: seq<string>): string
    requires ps != []
  {
    if |ps| == 1 then ps[0] else ps[0] + ";" + Join(ps[1..])
  }

  /** Nothing is lost or moved: the pieces joined with `;` are the input. */
  lemma {:induction false} JoinPieces(s: string, quoted: bool)
    ensures Join(Pieces(s, quoted)) == s
    decreases |s|
  {
    if s != "" {
      var quoted' := if s[0] == '"' then !quoted else quoted;
      if quoted && EscapePair(s, 0) {
        JoinPieces(s[2..], quoted);
        JoinPrepend(s[..2], Pieces(s[2..], quoted));
        assert s == s[..2] + s[2..];
      } else {
        JoinPieces(s[1..], quoted');
        assert s == s[..1] + s[1..];
        if s[0] == ';' && !quoted' {
          assert Pieces(s, quoted)[1..] == Pieces(s[1..], quoted');
        } else {
          JoinPrepend(s[..1], Pieces(s[1..], quoted'));
        }
      }
    }
  }

  lemma JoinPrepend(w: string, ps: seq<string>)
    requires ps != []
    ensures Join(Prepend(w, ps)) == w + Join(ps)
  {
    if |ps| > 1 {
      assert w + ps[0] + ";" + Join(ps[1..]) == w + (ps[0] + ";" + Join(ps[1..]));
    }
  }

  lemma FirstPieceIsPrefix(s: string, quoted: bool)
    ensures Pieces(s, quoted)[0] <= s
  {
    JoinPieces(s, quoted);
  }

  /** No piece holds a separator of its own: cutting it again gives it back whole. */
  lemma {:induction false} PiecesAreWhole(s: string, quoted: bool)
    ensures var ps := Pieces(s, quoted);
            Pieces(ps[0], quoted) == [ps[0]] && forall k :: 1 <= k < |ps| ==> Pieces(ps[k], false) == [ps[k]]
    decreases |s|
  {
    if s != "" {
      var quoted' := if s[0] == '"' then !quoted else quoted;
      var n := if quoted && EscapePair(s, 0) then 2 else 1;
      var rest := Pieces(s[n..], if n == 2 then quoted else quoted');
      PiecesAreWhole(s[n..], if n == 2 then quoted else quoted');
      if n == 1 && s[0] == ';' && !quoted' {
        assert Pieces(s, quoted) == [""] + rest;
      } else {
        assert Pieces(s, quoted) == Prepend(s[..n], rest);
        var whole := s[..n] + rest[0];
        assert whole[n..] == rest[0] && whole[..n] == s[..n];
        FirstPieceIsPrefix(s, quoted);
        PrependCut(s[..n], []);
        assert Prepend(s[..n], [rest[0]]) == [whole];
      }
    }
  }

  // ----- Quoted strings -----

  function TrimStart(s: string): string {
    if s != "" && Blank(s[0]) then TrimStart(s[1..]) else s
  }

  function TrimEnd(s: string): string {
    if s != "" && Blank(s[|s| - 1]) then TrimEnd(s[..|s| - 1]) else s
  }

  function TrimAscii(s: string): string {
    TrimEnd(TrimStart(s))
  }

  /** The text of a quoted string up to its closing quote. */
  function QuotedText(s: string): string
    decreases |s|
  {
    if s == "" || s[0] == '"' then ""
    else if EscapePair(s, 0) then [s[1]] + QuotedText(s[2..])
    else [s[0]] + QuotedText(s[1..])
  }

  function Unquoted(raw: string): string {
    var v := TrimAscii(raw);
    if v != "" && v[0] == '"' then QuotedText(v[1..]) else v
  }

  lemma QuotedStep(v: string, i: nat)
    requires i < |v|
    ensures QuotedText(v[i..]) ==
            if v[i] == '"' then ""
            else if EscapePair(v, i) then [v[i + 1]] + QuotedText(v[i + 2..])
            else [v[i]] + QuotedText(v[i + 1..])
  {
    var rest := v[i..];
    assert EscapePair(rest, 0) <==> EscapePair(v, i);
    assert rest[1..] == v[i + 1..];
    if EscapePair(v, i) {
      assert rest[2..] == v[i + 2..];
    }
  }

  /** The text between the opening quote and the first unescaped quote (or the end). */
  method ReadQuoted(v: string) returns (out: string)
    ensures out == QuotedText(v)
  {
    out := "";
    var i := 0;
    ghost var left := QuotedText(v);
    assert v[0..] == v;
    while i < |v|
      invariant 0 <= i <= |v|
      invariant QuotedText(v) == out + left && left == QuotedText(v[i..])
    {
      QuotedStep(v, i);
      if EscapePair(v, i) {
        left := QuotedText(v[i + 2..]);
        Moved(out, v[i + 1], left);
        out := out + [v[i + 1]];
        i := i + 2;
        continue;
      }
      if v[i] == '"' { return; }
      left := QuotedText(v[i + 1..]);
      Moved(out, v[i], left);
      out := out + [v[i]];
      i := i + 1;
    }
  }

  method Unquote(raw: string) returns (out: string)
    ensures out == Unquoted(raw)
  {
    var v := TrimAscii(raw);
    if v == "" || v[0] != '"' { return v; }
    out := ReadQuoted(v[1..]);
  }

  // ----- Parameters -----

  /** One piece as a parameter; pieces without `=` are skipped. */
  function PieceParam(piece: string, lower: string -> string): seq<Param> {
    var eq := Position(piece, '=');
    if eq < 0 then [] else [Param(lower(TrimAscii(piece[..eq])), Unquoted(piece[eq + 1..]))]
  }

  function PieceParams(pieces: seq<string>, lower: string -> string): seq<Param> {
    if pieces == [] then [] else PieceParam(pieces[0], lower) + PieceParams(pieces[1..], lower)
  }

  /** The parameter list of a header value; `lower` is the host's lower-casing. */
  method ParseParams(s: string, lower: string -> string) returns (params: seq<Param>)
    ensures params == PieceParams(Pieces(s, false), lower)
  {
    params := [];
    var segs := SplitParams(s);
    assert segs[0..] == segs;
    ghost var left := PieceParams(segs, lower);
    for i := 0 to |segs|
      invariant PieceParams(segs, lower) == params + left && left == PieceParams(segs[i..], lower)
    {
      assert segs[i..][0] == segs[i] && segs[i..][1..] == segs[i + 1..];
      left := PieceParams(segs[i + 1..], lower);
      var seg := segs[i];
      var eq := Position(seg, '=');
      if eq < 0 { continue; }
      var value := Unquote(seg[eq + 1..]);
      Moved(params, Param(lower(TrimAscii(seg[..eq])), value), left);
      params := params + [Param(lower(TrimAscii(seg[..eq])), value)];
    }
  }

  // ----- Rendering -----

  /** Backslashes before `"` and `\` only. */
  function Escape(v: string): string {
    if v == "" then "" else (if Escapable(v[0]) then ['\\', v[0]] else [v[0]]) + Escape(v[1..])
  }

  /** A value as a quoted string or as it is. */
  function WriteValue(v: string, quoted: bool): string {
    if quoted then "\"" + Escape(v) + "\"" else v
  }

  function RenderParam(p: Param, pad: string, quoted: bool): string {
    pad + p.name + "=" + WriteValue(p.value, quoted)
  }

  /** The parameters in order; `quoted` chooses the form of each. */
  function RenderAll(ps: seq<Param>, pad: string, quoted: Param -> bool): string
    requires ps != []
  {
    if |ps| == 1 then RenderParam(ps[0], pad, quoted(ps[0]))
    else RenderParam(ps[0], pad, quoted(ps[0])) + ";" + RenderAll(ps[1..], pad, quoted)
  }

  predicate AllBlank(s: string) {
    forall c :: c in s ==> Blank(c)
  }

  /** A name the grammar allows: no separators, no blanks around it, already lower case. */
  ghost predicate PlainName(name: string, lower: string -> string) {
    '=' !in name && ';' !in name && '"' !in name && lower(name) == name &&
    (name != "" ==> !Blank(name[0]) && !Blank(name[|name| - 1]))
  }

  /** A value that needs no quotes. */
  predicate PlainValue(v: string) {
    ';' !in v && '"' !in v && (v != "" ==> !Blank(v[0]) && !Blank(v[|v| - 1]))
  }

  lemma {:induction false} PiecesPlain(w: string, rest: string)
    requires ';' !in w && '"' !in w
    ensures Pieces(w + rest, false) == Prepend(w, Pieces(rest, false))
    decreases |w|
  {
    var ps := Pieces(rest, false);
    if w == "" {
      assert w + rest == rest;
      PrependNothing(ps);
    } else {
      assert (w + rest)[1..] == w[1..] + rest && (w + rest)[..1] == w[..1];
      PiecesPlain(w[1..], rest);
      PrependTwice(w[..1], w[1..], ps);
      assert w == w[..1] + w[1..];
    }
  }

  lemma {:induction false} PiecesQuoted(v: string, rest: string)
    ensures Pieces(Escape(v) + "\"" + rest, true) == Prepend(Escape(v) + "\"", Pieces(rest, false))
    decreases |v|
  {
    var ps := Pieces(rest, false);
    var text := Escape(v) + "\"" + rest;
    if v == "" {
      assert text == "\"" + rest && text[1..] == rest && text[..1] == "\"";
      assert Escape(v) + "\"" == "\"";
    } else {
      var e := if Escapable(v[0]) then ['\\', v[0]] else [v[0]];
      var tail := Escape(v[1..]) + "\"";
      assert Escape(v) + "\"" == e + tail;
      assert text == e + (tail + rest);
      assert text[|e|..] == tail + rest && text[..|e|] == e;
      PiecesQuoted(v[1..], rest);
      PrependTwice(e, tail, ps);
    }
  }

  /** A rendered parameter is never cut, whatever its value contains. */
  lemma PiecesRendered(p: Param, pad: string, quoted: bool, rest: string)
    requires ';' !in p.name && '"' !in p.name && AllBlank(pad) && (quoted || PlainValue(p.value))
    ensures Pieces(RenderParam(p, pad, quoted) + rest, false) == Prepend(RenderParam(p, pad, quoted), Pieces(rest, false))
  {
    var head := pad + p.name + "=";
    if !quoted {
      PiecesPlain(head + p.value, rest);
    } else {
      var tail := Escape(p.value) + "\"";
      var ps := Pieces(rest, false);
      Regroup("\"", Escape(p.value), "\"");
      QuotedWritten(head, tail, rest);
      PiecesPlain(head, "\"" + (tail + rest));
      Behind("\"", tail + rest);
      PiecesQuoted(p.value, rest);
      PrependTwice("\"", tail, ps);
      PrependTwice(head, "\"" + tail, ps);
    }
  }

  lemma QuotedWritten(head: string, tail: string, rest: string)
    ensures (head + ("\"" + tail)) + rest == head + ("\"" + (tail + rest))
  {
  }

  lemma {:induction false} QuotedTextOfEscape(v: string)
    ensures QuotedText(Escape(v) + "\"") == v
  {
    if v != "" {
      var e := if Escapable(v[0]) then ['\\', v[0]] else [v[0]];
      var text := Escape(v) + "\"";
      assert text == e + (Escape(v[1..]) + "\"");
      assert text[|e|..] == Escape(v[1..]) + "\"";
      QuotedTextOfEscape(v[1..]);
      assert v == [v[0]] + v[1..];
    }
  }

  lemma {:induction false} TrimPad(pad: string, s: string)
    requires AllBlank(pad) && (s != "" ==> !Blank(s[0]) && !Blank(s[|s| - 1]))
    ensures TrimAscii(pad + s) == s
    decreases |pad|
  {
    if pad == "" {
      assert pad + s == s;
    } else {
      assert (pad + s)[1..] == pad[1..] + s;
      TrimPad(pad[1..], s);
    }
  }

  lemma UnquoteWritten(v: string, quoted: bool)
    requires quoted || PlainValue(v)
    ensures Unquoted(WriteValue(v, quoted)) == v
  {
    var w := WriteValue(v, quoted);
    TrimPad("", w);
    assert "" + w == w;
    if quoted {
      assert w[1..] == Escape(v) + "\"";
      QuotedTextOfEscape(v);
    }
  }

  // ----- Quoted strings as anyone may write them -----

  /** A character as it is, or behind a backslash. */
  datatype Bit = Bare(c: char) | Quoted(c: char)

  function BitsText(bits: seq<Bit>): string {
    if bits == [] then ""
    else (match bits[0] case Bare(c) => [c] case Quoted(c) => ['\\', c]) + BitsText(bits[1..])
  }

  function BitsValue(bits: seq<Bit>): string {
    if bits == [] then "" else [bits[0].c] + BitsValue(bits[1..])
  }

  /** Quotes are escaped; a backslash of its own is one with neither a quote nor a backslash behind it. */
  predicate WellBits(bits: seq<Bit>, end: string) {
    bits == [] ||
    (var behind := BitsText(bits[1..]) + end;
     (match bits[0]
      case Quoted(c) => Escapable(c)
      case Bare(c) => c != '"' && (c == '\\' && behind != "" ==> !Escapable(behind[0]))) &&
     WellBits(bits[1..], end))
  }

  /** The first bit and what is behind it. */
  lemma FirstBit(bits: seq<Bit>, end: string) returns (n: nat)
    requires bits != [] && WellBits(bits, end)
    ensures var t := BitsText(bits) + end;
      n <= |t| && t[n..] == BitsText(bits[1..]) + end && t[..n] + BitsText(bits[1..]) == BitsText(bits) &&
      (bits[0].Quoted? ==> n == 2 && EscapePair(t, 0) && t[1] == bits[0].c) &&
      (bits[0].Bare? ==> n == 1 && !EscapePair(t, 0) && t[0] == bits[0].c && t[0] != '"')
  {
    var w := match bits[0] case Bare(c) => [c] case Quoted(c) => ['\\', c];
    var t, behind := BitsText(bits) + end, BitsText(bits[1..]) + end;
    n := |w|;
    Regroup(w, BitsText(bits[1..]), end);
    Behind(w, behind);
    assert t == w + behind;
    assert |t| == n + |behind| && t[0] == w[0] && (behind != "" ==> t[n] == behind[0]);
  }

  /** However it is written, a quoted string reads as its characters, up to its closing quote or the end. */
  lemma {:induction false} QuotedBits(bits: seq<Bit>, end: string)
    requires WellBits(bits, end) && (end == "" || end[0] == '"')
    ensures QuotedText(BitsText(bits) + end) == BitsValue(bits)
    decreases |bits|
  {
    if bits == [] {
      assert BitsText(bits) + end == end;
    } else {
      var n := FirstBit(bits, end);
      QuotedBits(bits[1..], end);
    }
  }

  /** It is not cut either, and what follows its closing quote is cut as if it stood alone. */
  lemma {:induction false} PiecesBits(bits: seq<Bit>, rest: string)
    requires WellBits(bits, "\"" + rest)
    ensures Pieces(BitsText(bits) + ("\"" + rest), true) == Prepend(BitsText(bits) + "\"", Pieces(rest, false))
    decreases |bits|
  {
    var end := "\"" + rest;
    var ps := Pieces(rest, false);
    Behind("\"", rest);
    if bits == [] {
      assert BitsText(bits) + end == end && BitsText(bits) + "\"" == "\"" && end[..1] == "\"";
    } else {
      var n := FirstBit(bits, end);
      var t, tail := BitsText(bits) + end, BitsText(bits[1..]) + "\"";
      PiecesBits(bits[1..], rest);
      assert Pieces(t, true) == Prepend(t[..n], Pieces(t[n..], true));
      PrependTwice(t[..n], tail, ps);
      Regroup(t[..n], BitsText(bits[1..]), "\"");
    }
  }

  lemma QuotedValue(bits: seq<Bit>)
    requires WellBits(bits, "\"")
    ensures Unquoted("\"" + (BitsText(bits) + "\"")) == BitsValue(bits)
  {
    var tail := BitsText(bits) + "\"";
    var value := "\"" + tail;
    TrimPad("", value);
    assert "" + value == value && value[1..] == tail;
    QuotedBits(bits, "\"");
  }

  /** One whole piece. */
  lemma WholePiece(head: string, bits: seq<Bit>)
    requires ';' !in head && '"' !in head && WellBits(bits, "\"")
    ensures Pieces(head + ("\"" + (BitsText(bits) + "\"")), false) == [head + ("\"" + (BitsText(bits) + "\""))]
  {
    var tail := BitsText(bits) + "\"";
    PiecesPlain(head, "\"" + tail);
    Behind("\"", tail);
    assert "\"" + "" == "\"";
    PiecesBits(bits, "");
    PrependTwice("\"", tail, [""]);
    PrependTwice(head, "\"" + tail, [""]);
    PrependCut(head + ("\"" + tail), []);
  }

  /** A piece with its first `=` in view. */
  lemma PieceAtEquals(before: string, after: string, lower: string -> string)
    requires '=' !in before
    ensures PieceParam(before + ("=" + after), lower) == [Param(lower(TrimAscii(before)), Unquoted(after))]
  {
    var r := before + ("=" + after);
    PositionOf(before, '=', after);
    assert r[..|before|] == before && r[|before| + 1..] == after;
  }

  lemma RenderedIsTheParam(p: Param, pad: string, quoted: bool, lower: string -> string)
    requires PlainName(p.name, lower) && AllBlank(pad) && (quoted || PlainValue(p.value))
    ensures PieceParam(RenderParam(p, pad, quoted), lower) == [p]
  {
    Regroup(pad + p.name, "=", WriteValue(p.value, quoted));
    PieceAtEquals(pad + p.name, WriteValue(p.value, quoted), lower);
    TrimPad(pad, p.name);
    UnquoteWritten(p.value, quoted);
  }

  /** The last parameter is a piece of its own. */
  lemma LastRead(p: Param, pad: string, quoted: bool, lower: string -> string)
    requires PlainName(p.name, lower) && AllBlank(pad) && (quoted || PlainValue(p.value))
    ensures PieceParams(Pieces(RenderParam(p, pad, quoted), false), lower) == [p]
  {
    var r := RenderParam(p, pad, quoted);
    PiecesRendered(p, pad, quoted, "");
    assert r + "" == r;
    PrependCut(r, []);
    assert Pieces("", false) == [""] + [];
    OnePiece(r, [], lower);
    RenderedIsTheParam(p, pad, quoted, lower);
  }

  /** So is one before a semicolon. */
  lemma NextRead(p: Param, pad: string, quoted: bool, more: string, lower: string -> string)
    requires PlainName(p.name, lower) && AllBlank(pad) && (quoted || PlainValue(p.value))
    ensures PieceParams(Pieces(RenderParam(p, pad, quoted) + (";" + more), false), lower) ==
            [p] + PieceParams(Pieces(more, false), lower)
  {
    var r := RenderParam(p, pad, quoted);
    PiecesRendered(p, pad, quoted, ";" + more);
    Behind(";", more);
    PrependCut(r, Pieces(more, false));
    OnePiece(r, Pieces(more, false), lower);
    RenderedIsTheParam(p, pad, quoted, lower);
  }

  lemma OnePiece(piece: string, rest: seq<string>, lower: string -> string)
    ensures PieceParams([piece] + rest, lower) == PieceParam(piece, lower) + PieceParams(rest, lower)
  {
    assert ([piece] + rest)[1..] == rest;
  }

  /** A parameter whose value is quoted in any way at all is read as its name and those characters. */
  lemma QuotedParam(name: string, bits: seq<Bit>, lower: string -> string)
    requires PlainName(name, lower) && WellBits(bits, "\"")
    ensures PieceParams(Pieces((name + "=") + ("\"" + (BitsText(bits) + "\"")), false), lower) == [Param(name, BitsValue(bits))]
  {
    var value := "\"" + (BitsText(bits) + "\"");
    WholePiece(name + "=", bits);
    Regroup(name, "=", value);
    PieceAtEquals(name, value, lower);
    TrimPad("", name);
    assert "" + name == name;
    QuotedValue(bits);
    OnePiece((name + "=") + value, [], lower);
    assert [(name + "=") + value] + [] == [(name + "=") + value];
  }

  /** Any parameter list written with quoted strings, or plain values where they need no quotes, is read back unchanged. */
  lemma {:induction false} RenderThenParse(ps: seq<Param>, pad: string, quoted: Param -> bool, lower: string -> string)
    requires ps != [] && AllBlank(pad)
    requires forall i :: 0 <= i < |ps| ==> PlainName(ps[i].name, lower) && (quoted(ps[i]) || PlainValue(ps[i].value))
    ensures PieceParams(Pieces(RenderAll(ps, pad, quoted), false), lower) == ps
    decreases |ps|
  {
    if |ps| == 1 {
      LastRead(ps[0], pad, quoted(ps[0]), lower);
    } else {
      var more := RenderAll(ps[1..], pad, quoted);
      Regroup(RenderParam(ps[0], pad, quoted(ps[0])), ";", more);
      NextRead(ps[0], pad, quoted(ps[0]), more, lower);
      RenderThenParse(ps[1..], pad, quoted, lower);
      assert ps == [ps[0]] + ps[1..];
    }
  }
}
