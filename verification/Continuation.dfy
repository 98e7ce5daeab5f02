/** RFC 2231 section 3 continuations and percent-decoding (fluxDown/utils/filename.ts). */
module Continuation {
  import opened Numerals
  import opened Options
  import opened Sequences
  import opened Params

  type byte = b: int | 0 <= b < 256

  // ----- Percent-decoding to bytes -----

  function CharByte(c: char): byte {
    c as int % 256
  }

  predicate HexPair(s: string, i: nat) {
    i + 2 < |s| && s[i] == '%' && HexDigit(s[i + 1]).Some? && HexDigit(s[i + 2]).Some?
  }

  function PairByte(s: string, i: nat): byte
    requires HexPair(s, i)
  {
    HexDigit(s[i + 1]).value * 16 + HexDigit(s[i + 2]).value
  }

  /** The bytes a percent-encoded text stands for; a stray `%` is itself. */
  function PercentBytes(s: string): seq<byte>
    decreases |s|
  {
    if s == "" then []
    else if HexPair(s, 0) then [PairByte(s, 0)] + PercentBytes(s[3..])
    else [CharByte(s[0])] + PercentBytes(s[1..])
  }

  lemma PercentStep(s: string, i: nat)
    requires i < |s|
    ensures PercentBytes(s[i..]) ==
            if HexPair(s, i) then [PairByte(s, i)] + PercentBytes(s[i + 3..]) else [CharByte(s[i])] + PercentBytes(s[i + 1..])
  {
    var rest := s[i..];
    assert HexPair(rest, 0) <==> HexPair(s, i);
    if HexPair(s, i) {
      assert rest[3..] == s[i + 3..];
    } else {
      assert rest[1..] == s[i + 1..];
    }
  }

  method PercentDecodeLatin1(s: string) returns (out: seq<byte>)
    ensures out == PercentBytes(s)
  {
    out := [];
    var i := 0;
    ghost var left := PercentBytes(s);
    assert s[0..] == s;
    while i < |s|
      invariant 0 <= i <= |s|
      invariant PercentBytes(s) == out + left && left == PercentBytes(s[i..])
    {
      PercentStep(s, i);
      if HexPair(s, i) {
        left := PercentBytes(s[i + 3..]);
        Moved(out, PairByte(s, i), left);
        out := out + [PairByte(s, i)];
        i := i + 3;
      } else {
        left := PercentBytes(s[i + 1..]);
        Moved(out, CharByte(s[i]), left);
        out := out + [CharByte(s[i])];
        i := i + 1;
      }
    }
  }

  function Latin1Bytes(s: string): (r: seq<byte>)
    ensures |r| == |s| && forall i :: 0 <= i < |s| ==> r[i] == CharByte(s[i])
  {
    seq(|s|, i requires 0 <= i < |s| => CharByte(s[i]))
  }

  // ----- Segments -----

  datatype Segment = Segment(value: string, star: bool)

  const SEGMENT_PREFIX := "filename*"

  /** Number and star of a segment name `filename*N` or `filename*N*`. */
  function SegmentOf(name: string): Option<(nat, bool)> {
    if !(SEGMENT_PREFIX <= name) then None
    else
      var body := name[|SEGMENT_PREFIX|..];
      var star := body != "" && body[|body| - 1] == '*';
      var digits := if star then body[..|body| - 1] else body;
      if digits != "" && AllDigits(digits) then Some((Decimal(digits), star)) else None
  }

  /** Segments by number; the first parameter of a number wins. */
  function Segments(params: seq<Param>): map<nat, Segment> {
    if params == [] then map[]
    else
      var rest := Segments(params[1..]);
      match SegmentOf(params[0].name)
      case None => rest
      case Some((n, star)) => rest[n := Segment(params[0].value, star)]
  }

  /** `charset'lang'rest`: the charset and what follows the second quote. */
  function ExtValue(v: string): Option<(string, string)> {
    var a := Position(v, '\'');
    if a < 0 then None
    else
      var b := Position(v[a + 1..], '\'');
      if b < 0 then None else Some((v[..a], v[a + 1..][b + 1..]))
  }

  datatype Value = Value(charset: string, bytes: seq<byte>)

  /** What segment `i` contributes; only a starred segment 0 names a charset. */
  function Chunk(seg: Segment, i: nat): Option<Value> {
    if !seg.star then Some(Value("", Latin1Bytes(seg.value)))
    else if i > 0 then Some(Value("", PercentBytes(seg.value)))
    else
      match ExtValue(seg.value)
      case None => None
      case Some((charset, rest)) => Some(Value(TrimAscii(charset), PercentBytes(rest)))
  }

  /** The segments from `i` on, in order; `None` when a number is missing. */
  function Collect(segs: map<nat, Segment>, i: nat): Option<Value>
    decreases |segs| - i
  {
    if i >= |segs| then Some(Value("", []))
    else if i !in segs then None
    else
      match (Chunk(segs[i], i), Collect(segs, i + 1))
      case (Some(c), Some(rest)) => Some(Value(c.charset, c.bytes + rest.bytes))
      case _ => None
  }

  /** One more segment goes in front of those behind it, unless an earlier one has its number. */
  lemma Gathered(rest: map<nat, Segment>, n: nat, seg: Segment, segs: map<nat, Segment>)
    ensures rest[n := seg] + segs == rest + (if n in segs then segs else segs[n := seg])
  {
  }

  method GatherSegments(params: seq<Param>) returns (segs: map<nat, Segment>)
    ensures segs == Segments(params)
  {
    segs := map[];
    for k := 0 to |params|
      invariant Segments(params) == Segments(params[k..]) + segs
    {
      assert params[k..][1..] == params[k + 1..];
      ghost var rest := Segments(params[k + 1..]);
      match SegmentOf(params[k].name) {
        case None =>
        case Some((n, star)) =>
          Gathered(rest, n, Segment(params[k].value, star), segs);
          if n !in segs {
            segs := segs[n := Segment(params[k].value, star)];
          }
      }
    }
  }

  ghost function After(charset: string, bytes: seq<byte>, rest: Option<Value>): Option<Value> {
    match rest
    case None => None
    case Some(v) => Some(Value(charset, bytes + v.bytes))
  }

  lemma Appended(charset: string, bytes: seq<byte>, chunk: seq<byte>, rest: Option<Value>)
    ensures After(charset, bytes + chunk, rest) ==
            After(charset, bytes, match rest case None => None case Some(v) => Some(Value("", chunk + v.bytes)))
    ensures After(charset, bytes, Some(Value("", []))) == Some(Value(charset, bytes))
  {
    if rest.Some? {
      assert (bytes + chunk) + rest.value.bytes == bytes + (chunk + rest.value.bytes);
    }
    assert bytes + [] == bytes;
  }

  /** The body of the loop: charset and bytes of one segment. */
  method ReadChunk(seg: Segment, i: nat) returns (c: Option<Value>)
    ensures c == Chunk(seg, i)
  {
    if !seg.star { return Some(Value("", Latin1Bytes(seg.value))); }
    var charset, rest := "", seg.value;
    if i == 0 {
      var m := ExtValue(seg.value);
      if m.None? { return None; }
      charset, rest := TrimAscii(m.value.0), m.value.1;
    }
    var bytes := PercentDecodeLatin1(rest);
    return Some(Value(charset, bytes));
  }

  /** The segments in the order of their numbers; the charset is that of segment 0. */
  method AssembleSegments(segs: map<nat, Segment>) returns (r: Option<Value>)
    ensures r == Collect(segs, 0)
  {
    var charset, bytes := "", [];
    var i := 0;
    while i < |segs|
      invariant 0 <= i <= |segs|
      invariant if i == 0 then charset == "" && bytes == [] else Collect(segs, 0) == After(charset, bytes, Collect(segs, i))
    {
      if i !in segs { return None; }
      var chunk := ReadChunk(segs[i], i);
      if chunk.None? { return None; }
      if i == 0 {
        charset := chunk.value.charset;
        assert bytes + chunk.value.bytes == chunk.value.bytes;
      } else {
        Appended(charset, bytes, chunk.value.bytes, Collect(segs, i + 1));
      }
      bytes := bytes + chunk.value.bytes;
      i := i + 1;
    }
    Appended(charset, bytes, [], None);
    return Some(Value(charset, bytes));
  }

  /** `decode` is the host's charset decoder (with its fallbacks). */
  method DecodeContinuation(params: seq<Param>, decode: (string, seq<byte>) -> Option<string>)
    returns (r: Option<string>)
    ensures r == DecodedName(params, decode)
  {
    var segs := GatherSegments(params);
    if |segs| == 0 { return None; }
    var v := AssembleSegments(segs);
    if v.None? { return None; }
    return decode(v.value.charset, v.value.bytes);
  }

  function DecodedName(params: seq<Param>, decode: (string, seq<byte>) -> Option<string>): Option<string> {
    var segs := Segments(params);
    if segs == map[] then None
    else
      match Collect(segs, 0)
      case None => None
      case Some(v) => decode(v.charset, v.bytes)
  }

  // ----- Rendering a value as segments -----

  function HexChar(n: nat): (c: char)
    requires n < 16
    ensures HexDigit(c) == Some(n)
  {
    if n < 10 then ('0' as int + n) as char else ('A' as int + n - 10) as char
  }

  /** Percent-encoding; bytes allowed by `plain` may stay as they are. */
  function PercentEncode(bs: seq<byte>, plain: byte -> bool): string {
    if bs == [] then ""
    else (if plain(bs[0]) then [bs[0] as char]
          else ['%', HexChar(bs[0] / 16), HexChar(bs[0] % 16)]) + PercentEncode(bs[1..], plain)
  }

  lemma {:induction false} DecodeEncode(bs: seq<byte>, plain: byte -> bool)
    requires !plain('%' as int)
    ensures PercentBytes(PercentEncode(bs, plain)) == bs
  {
    if bs != [] {
      var b := bs[0];
      var e := if plain(b) then [b as char] else ['%', HexChar(b / 16), HexChar(b % 16)];
      var rest := PercentEncode(bs[1..], plain);
      var s := PercentEncode(bs, plain);
      assert s == e + rest && s[|e|..] == rest;
      DecodeEncode(bs[1..], plain);
      if !plain(b) {
        assert HexPair(s, 0) && PairByte(s, 0) == b;
      }
    }
  }

  /** Part of a value, sent percent-encoded or as it is. */
  datatype Cut = Cut(bytes: seq<byte>, star: bool)

  /** Segment number `i` as a parameter; the star goes behind the number. */
  function SegmentParam(i: nat, seg: Segment): Param {
    Param(SEGMENT_PREFIX + DecimalText(i) + (if seg.star then "*" else ""), seg.value)
  }

  function Latin1Text(bytes: seq<byte>): (s: string)
    ensures Latin1Bytes(s) == bytes
  {
    seq(|bytes|, i requires 0 <= i < |bytes| => bytes[i] as char)
  }

  /** The parts as written; a starred first one carries charset and language. */
  function SegmentValues(cuts: seq<Cut>, charset: string, lang: string, plain: byte -> bool): seq<Segment> {
    seq(|cuts|, i requires 0 <= i < |cuts| =>
      Segment(
        if !cuts[i].star then Latin1Text(cuts[i].bytes)
        else (if i == 0 then charset + "'" + lang + "'" else "") + PercentEncode(cuts[i].bytes, plain),
        cuts[i].star))
  }

  function CutBytes(cuts: seq<Cut>): seq<seq<byte>> {
    seq(|cuts|, i requires 0 <= i < |cuts| => cuts[i].bytes)
  }

  /** The charset that the parts name. */
  function CutCharset(cuts: seq<Cut>, charset: string): string {
    if cuts != [] && cuts[0].star then charset else ""
  }

  lemma SegmentNameRead(i: nat, seg: Segment)
    ensures SegmentOf(SegmentParam(i, seg).name) == Some((i, seg.star))
  {
    var digits, star := DecimalText(i), if seg.star then "*" else "";
    var name := SEGMENT_PREFIX + digits + star;
    var body := name[|SEGMENT_PREFIX|..];
    assert body == digits + star;
    if seg.star {
      assert body[..|body| - 1] == digits;
    } else {
      assert body == digits && body[|body| - 1] == digits[|digits| - 1];
    }
  }

  lemma ExtValueRead(charset: string, lang: string, rest: string)
    requires '\'' !in charset && '\'' !in lang
    ensures ExtValue(charset + "'" + lang + "'" + rest) == Some((charset, rest))
  {
    var tail := lang + "'" + rest;
    var v := charset + "'" + tail;
    assert charset + "'" + lang + "'" + rest == v;
    Regroup(charset, "'", tail);
    PositionOf(charset, '\'', tail);
    assert v[..|charset|] == charset && v[|charset| + 1..] == tail;
    Regroup(lang, "'", rest);
    PositionOf(lang, '\'', rest);
    assert tail[|lang| + 1..] == rest;
  }

  /** Every segment of `values` is among the parameters, in any order, and no other segment is. */
  ghost predicate Carries(params: seq<Param>, values: seq<Segment>) {
    (forall i :: 0 <= i < |values| ==> SegmentParam(i, values[i]) in params) && OnlySegmentsOf(params, values)
  }

  ghost predicate OnlySegmentsOf(params: seq<Param>, values: seq<Segment>) {
    forall k :: 0 <= k < |params| ==> NoOtherSegment(params[k], values)
  }

  ghost predicate NoOtherSegment(p: Param, values: seq<Segment>) {
    SegmentOf(p.name).Some? ==> exists i :: 0 <= i < |values| && p == SegmentParam(i, values[i])
  }

  lemma RightSegment(p: Param, values: seq<Segment>, n: nat, star: bool)
    requires NoOtherSegment(p, values) && SegmentOf(p.name) == Some((n, star))
    ensures n < |values| && values[n] == Segment(p.value, star)
  {
    var i :| 0 <= i < |values| && p == SegmentParam(i, values[i]);
    SegmentNameRead(i, values[i]);
  }

  /** Every segment found stands under its number. */
  lemma {:induction false} OnlyRightSegments(params: seq<Param>, values: seq<Segment>)
    requires OnlySegmentsOf(params, values)
    ensures forall n :: n in Segments(params) ==> n < |values| && Segments(params)[n] == values[n]
    decreases |params|
  {
    if params != [] {
      var p, rest := params[0], params[1..];
      assert forall k :: 0 <= k < |rest| ==> rest[k] == params[k + 1];
      OnlyRightSegments(rest, values);
      assert NoOtherSegment(p, values);
      match SegmentOf(p.name)
      case None =>
      case Some((n, star)) => RightSegment(p, values, n, star);
    }
  }

  lemma {:induction false} SegmentFound(params: seq<Param>, values: seq<Segment>, i: nat)
    requires i < |values| && SegmentParam(i, values[i]) in params
    ensures i in Segments(params)
    decreases |params|
  {
    SegmentNameRead(i, values[i]);
    if SegmentParam(i, values[i]) != params[0] {
      assert params == [params[0]] + params[1..];
      SegmentFound(params[1..], values, i);
    }
  }

  lemma SegmentsFound(params: seq<Param>, values: seq<Segment>)
    requires OnlySegmentsOf(params, values)
    ensures forall n :: n in Segments(params) ==> n < |values| && Segments(params)[n] == values[n]
    ensures forall i :: 0 <= i < |values| && SegmentParam(i, values[i]) in params ==> i in Segments(params)
  {
    OnlyRightSegments(params, values);
    forall i | 0 <= i < |values| && SegmentParam(i, values[i]) in params ensures i in Segments(params) {
      SegmentFound(params, values, i);
    }
  }

  lemma {:induction false} KeyCount(keys: set<nat>, n: nat)
    requires forall k: nat :: k in keys <==> k < n
    ensures |keys| == n
  {
    if n > 0 {
      KeyCount(keys - {n - 1}, n - 1);
    }
  }

  lemma {:induction false} CollectFrom(segs: map<nat, Segment>, cuts: seq<Cut>, charset: string, lang: string,
                                       plain: byte -> bool, i: nat)
    requires !plain('%' as int) && '\'' !in charset && '\'' !in lang && TrimAscii(charset) == charset
    requires |segs| == |cuts| && i <= |cuts|
    requires forall n :: 0 <= n < |cuts| ==> n in segs && segs[n] == SegmentValues(cuts, charset, lang, plain)[n]
    ensures Collect(segs, i) ==
              Some(Value(if i == 0 then CutCharset(cuts, charset) else "", Flatten(CutBytes(cuts)[i..])))
    decreases |cuts| - i
  {
    if i < |cuts| {
      CollectFrom(segs, cuts, charset, lang, plain, i + 1);
      assert CutBytes(cuts)[i..][1..] == CutBytes(cuts)[i + 1..];
      SegmentDecoded(cuts, charset, lang, plain, i);
    }
  }

  /** A single segment yields its bytes, and a starred first one also the charset. */
  lemma SegmentDecoded(cuts: seq<Cut>, charset: string, lang: string, plain: byte -> bool, i: nat)
    requires !plain('%' as int) && '\'' !in charset && '\'' !in lang && TrimAscii(charset) == charset && i < |cuts|
    ensures Chunk(SegmentValues(cuts, charset, lang, plain)[i], i) ==
            Some(Value(if i == 0 then CutCharset(cuts, charset) else "", cuts[i].bytes))
  {
    var e := PercentEncode(cuts[i].bytes, plain);
    DecodeEncode(cuts[i].bytes, plain);
    if i == 0 {
      ExtValueRead(charset, lang, e);
    } else {
      assert "" + e == e;
    }
  }

  /**
   * A value chopped into segments, each percent-encoded or as it is, is put together again, whatever the
   * order of the segments and whatever other parameters stand between them.
   */
  lemma Reassembly(params: seq<Param>, cuts: seq<Cut>, charset: string, lang: string, plain: byte -> bool,
                   decode: (string, seq<byte>) -> Option<string>)
    requires !plain('%' as int) && '\'' !in charset && '\'' !in lang && TrimAscii(charset) == charset
    requires cuts != [] && Carries(params, SegmentValues(cuts, charset, lang, plain))
    ensures DecodedName(params, decode) == decode(CutCharset(cuts, charset), Flatten(CutBytes(cuts)))
  {
    var values := SegmentValues(cuts, charset, lang, plain);
    var segs := Segments(params);
    SegmentsFound(params, values);
    KeyCount(segs.Keys, |cuts|);
    CollectFrom(segs, cuts, charset, lang, plain, 0);
    assert CutBytes(cuts)[0..] == CutBytes(cuts);
    assert 0 in segs;
  }

  /**
   * From header text to name: the segments written as parameters, in any order and among others, plain
   * or quoted, go through splitting, parsing and assembly to the decoded bytes.
   */
  lemma HeaderReassembly(params: seq<Param>, cuts: seq<Cut>, charset: string, lang: string, plain: byte -> bool,
                         pad: string, quoted: Param -> bool, lower: string -> string,
                         decode: (string, seq<byte>) -> Option<string>)
    requires !plain('%' as int) && '\'' !in charset && '\'' !in lang && TrimAscii(charset) == charset
    requires cuts != [] && Carries(params, SegmentValues(cuts, charset, lang, plain))
    requires params != [] && AllBlank(pad)
    requires forall i :: 0 <= i < |params| ==>
      PlainName(params[i].name, lower) && (quoted(params[i]) || PlainValue(params[i].value))
    ensures DecodedName(PieceParams(Pieces(RenderAll(params, pad, quoted), false), lower), decode) ==
            decode(CutCharset(cuts, charset), Flatten(CutBytes(cuts)))
  {
    RenderThenParse(params, pad, quoted, lower);
    Reassembly(params, cuts, charset, lang, plain, decode);
  }

  // ----- The whole header -----

  /** The host's charset decoder, its reading of a plain value, and its trimming. */
  datatype Host = Host(
    decode: (string, seq<byte>) -> Option<string>, plainName: string -> string, trim: string -> string)

  const EXT_NAME := "filename*"
  const PLAIN_NAME := "filename"

  /** The value of the first parameter of this name. */
  function FirstOf(params: seq<Param>, name: string): Option<string> {
    if params == [] then None
    else if params[0].name == name then Some(params[0].value)
    else FirstOf(params[1..], name)
  }

  function NonEmpty(s: Option<string>, host: Host): Option<string> {
    if s.Some? && host.trim(s.value) != "" then Some(host.trim(s.value)) else None
  }

  /** `charset'lang'pct`, decoded. */
  function ExtName(v: string, host: Host): Option<string> {
    match ExtValue(v)
    case None => None
    case Some((charset, rest)) => host.decode(TrimAscii(charset), PercentBytes(rest))
  }

  /** What the three forms of the name give, each blank or not. */
  function Starred(params: seq<Param>, host: Host): Option<string> {
    match FirstOf(params, EXT_NAME) case None => None case Some(v) => NonEmpty(ExtName(v, host), host)
  }

  function Continued(params: seq<Param>, host: Host): Option<string> {
    NonEmpty(DecodedName(params, host.decode), host)
  }

  function Plain(params: seq<Param>, host: Host): Option<string> {
    match FirstOf(params, PLAIN_NAME) case None => None case Some(v) => NonEmpty(Some(host.plainName(v)), host)
  }

  /** The name is the first of the three that is there, or "" when none is. */
  ghost predicate IsName(name: string, params: seq<Param>, host: Host) {
    if Starred(params, host).Some? then name == Starred(params, host).value
    else if Continued(params, host).Some? then name == Continued(params, host).value
    else if Plain(params, host).Some? then name == Plain(params, host).value
    else name == ""
  }

  method DecodeExtValue(v: string, host: Host) returns (r: Option<string>)
    ensures r == ExtName(v, host)
  {
    var m := ExtValue(v);
    if m.None? { return None; }
    var bytes := PercentDecodeLatin1(m.value.1);
    return host.decode(TrimAscii(m.value.0), bytes);
  }

  /** `parseContentDispositionFilename`, on the header's bytes as Latin-1 characters. */
  method NameFromHeader(header: string, lower: string -> string, host: Host) returns (name: string)
    ensures IsName(name, PieceParams(Pieces(header, false), lower), host)
  {
    if header == "" { return ""; }
    var params := ParseParams(header, lower);
    var star := FirstOf(params, EXT_NAME);
    if star.Some? {
      var decoded := DecodeExtValue(star.value, host);
      if NonEmpty(decoded, host).Some? { return NonEmpty(decoded, host).value; }
    }
    var continued := DecodeContinuation(params, host.decode);
    if NonEmpty(continued, host).Some? { return NonEmpty(continued, host).value; }
    var plain := FirstOf(params, PLAIN_NAME);
    if plain.Some? && host.trim(host.plainName(plain.value)) != "" {
      return host.trim(host.plainName(plain.value));
    }
    return "";
  }

  lemma {:induction false} FirstIs(params: seq<Param>, name: string, k: nat)
    requires k < |params| && params[k].name == name && forall i :: 0 <= i < k ==> params[i].name != name
    ensures FirstOf(params, name) == Some(params[k].value)
  {
    if k > 0 {
      FirstIs(params[1..], name, k - 1);
    }
  }

  lemma {:induction false} FirstIsAmong(params: seq<Param>, name: string)
    ensures FirstOf(params, name).Some? ==> Param(name, FirstOf(params, name).value) in params
  {
    if params != [] && params[0].name != name {
      FirstIsAmong(params[1..], name);
    }
  }

  /** A header as its sender writes it: parameters with lower-case names, values quoted where they must be. */
  ghost predicate Written(header: string, params: seq<Param>, lower: string -> string) {
    exists pad, quoted: Param -> bool ::
      params != [] && AllBlank(pad) && header == RenderAll(params, pad, quoted) &&
      forall i :: 0 <= i < |params| ==>
        PlainName(params[i].name, lower) && (quoted(params[i]) || PlainValue(params[i].value))
  }

  /** The bytes come out in a form that is not blank. */
  ghost predicate Shows(charset: string, bytes: seq<byte>, host: Host) {
    host.decode(charset, bytes).Some? && host.trim(host.decode(charset, bytes).value) != ""
  }

  /**
   * Whoever writes bytes and charset into the first `filename*` of a header has that name read back,
   * whatever else the header holds.
   */
  lemma StarredName(header: string, params: seq<Param>, k: nat, bytes: seq<byte>, charset: string, lang: string,
                    plain: byte -> bool, lower: string -> string, host: Host, name: string)
    requires Written(header, params, lower) && IsName(name, PieceParams(Pieces(header, false), lower), host)
    requires !plain('%' as int) && '\'' !in charset && '\'' !in lang && TrimAscii(charset) == charset
    requires k < |params| && params[k] == Param(EXT_NAME, charset + "'" + lang + "'" + PercentEncode(bytes, plain))
    requires (forall i :: 0 <= i < k ==> params[i].name != EXT_NAME) && Shows(charset, bytes, host)
    ensures name == host.trim(host.decode(charset, bytes).value)
  {
    ReadBack(header, params, lower);
    FirstIs(params, EXT_NAME, k);
    ExtValueRead(charset, lang, PercentEncode(bytes, plain));
    DecodeEncode(bytes, plain);
  }

  lemma ReadBack(header: string, params: seq<Param>, lower: string -> string)
    requires Written(header, params, lower)
    ensures PieceParams(Pieces(header, false), lower) == params
  {
    var pad, quoted: Param -> bool :|
      params != [] && AllBlank(pad) && header == RenderAll(params, pad, quoted) &&
      forall i :: 0 <= i < |params| ==>
        PlainName(params[i].name, lower) && (quoted(params[i]) || PlainValue(params[i].value));
    RenderThenParse(params, pad, quoted, lower);
  }

  /** The same for numbered segments in any order, unless a `filename*` gives a name of its own. */
  lemma SegmentedName(header: string, params: seq<Param>, cuts: seq<Cut>, charset: string, lang: string,
                      plain: byte -> bool, lower: string -> string, host: Host, name: string)
    requires Written(header, params, lower) && IsName(name, PieceParams(Pieces(header, false), lower), host)
    requires !plain('%' as int) && '\'' !in charset && '\'' !in lang && TrimAscii(charset) == charset
    requires cuts != [] && Carries(params, SegmentValues(cuts, charset, lang, plain))
    requires forall v :: Param(EXT_NAME, v) in params ==> NonEmpty(ExtName(v, host), host).None?
    requires Shows(CutCharset(cuts, charset), Flatten(CutBytes(cuts)), host)
    ensures name == host.trim(host.decode(CutCharset(cuts, charset), Flatten(CutBytes(cuts))).value)
  {
    ReadBack(header, params, lower);
    FirstIsAmong(params, EXT_NAME);
    Reassembly(params, cuts, charset, lang, plain, host.decode);
  }

  lemma {:induction false} NoSegments(params: seq<Param>)
    requires forall p :: p in params ==> SegmentOf(p.name).None?
    ensures Segments(params) == map[]
  {
    if params != [] {
      NoSegments(params[1..]);
    }
  }

  /** Without segments and a `filename*` that shows, the first plain `filename` is the name, if it is not blank. */
  lemma PlainFileName(header: string, params: seq<Param>, k: nat, lower: string -> string, host: Host, name: string)
    requires Written(header, params, lower) && IsName(name, PieceParams(Pieces(header, false), lower), host)
    requires forall v :: Param(EXT_NAME, v) in params ==> NonEmpty(ExtName(v, host), host).None?
    requires forall p :: p in params ==> SegmentOf(p.name).None?
    requires k < |params| && params[k].name == PLAIN_NAME && forall i :: 0 <= i < k ==> params[i].name != PLAIN_NAME
    ensures name == host.trim(host.plainName(params[k].value))
  {
    ReadBack(header, params, lower);
    FirstIsAmong(params, EXT_NAME);
    NoSegments(params);
    FirstIs(params, PLAIN_NAME, k);
  }

  /** The numbers must be contiguous from 0: a gap discards the whole value. */
  lemma {:induction false} ContiguousOrNothing(segs: map<nat, Segment>, i: nat)
    ensures Collect(segs, i).Some? <==>
              forall n :: i <= n < |segs| ==> n in segs && Chunk(segs[n], n).Some?
    decreases |segs| - i
  {
    if i < |segs| {
      ContiguousOrNothing(segs, i + 1);
    }
  }
}
