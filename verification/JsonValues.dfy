/**
 * JSON values and their writing, and that the scanner finds exactly the written objects and arrays of a
 * script (fluxDown/utils/dash-manifest.ts, `extractJsonRoots`).
 */
module JsonValues {
  import opened JsonRoots
  import opened JsonScripts
  import Sequences

  // ----- Values and their writing -----

  datatype Json =
    | Str(text: string)
    | Scalar(word: string)
    | Arr(items: seq<Json>)
    | Obj(fields: seq<Field>)

  datatype Field = Field(name: string, value: Json)

  /** A backslash goes before a quote and before a backslash. */
  function Escape(s: string): string {
    if s == "" then ""
    else (if s[0] == '"' || s[0] == '\\' then ['\\', s[0]] else [s[0]]) + Escape(s[1..])
  }

  function InQuotes(s: string): string {
    ['"'] + (Escape(s) + ['"'])
  }

  /** `gap` is the white space behind a comma or a colon. */
  function Write(v: Json, gap: string): string
    decreases v
  {
    match v
    case Str(text) => InQuotes(text)
    case Scalar(word) => word
    case Arr(items) => ['['] + (WriteItems(items, "", gap) + [']'])
    case Obj(fields) => ['{'] + (WriteFields(fields, "", gap) + ['}'])
  }

  function WriteItems(items: seq<Json>, before: string, gap: string): string
    decreases items
  {
    if items == [] then "" else before + (Write(items[0], gap) + WriteItems(items[1..], "," + gap, gap))
  }

  function WriteFields(fields: seq<Field>, before: string, gap: string): string
    decreases fields
  {
    if fields == [] then ""
    else
      before + (InQuotes(fields[0].name) +
                ((":" + gap) + (Write(fields[0].value, gap) + WriteFields(fields[1..], "," + gap, gap))))
  }

  /** Numbers and the words true, false and null have no quotes, brackets or slashes. */
  predicate WellJson(v: Json)
    decreases v
  {
    match v
    case Str(_) => true
    case Scalar(word) => IsPlain(word)
    case Arr(items) => WellItems(items)
    case Obj(fields) => WellFields(fields)
  }

  predicate WellItems(items: seq<Json>)
    decreases items
  {
    items == [] || (WellJson(items[0]) && WellItems(items[1..]))
  }

  predicate WellFields(fields: seq<Field>)
    decreases fields
  {
    fields == [] || (WellJson(fields[0].value) && WellFields(fields[1..]))
  }

  // ----- Values as nodes of a script -----

  function PiecesOf(s: string): seq<Piece> {
    if s == "" then []
    else [if s[0] == '"' || s[0] == '\\' then Escaped(s[0]) else Raw(s[0])] + PiecesOf(s[1..])
  }

  function StringNode(s: string): Node {
    Skip(Quoted('"', PiecesOf(s)))
  }

  function NodeOf(v: Json, gap: string): Node
    decreases v
  {
    match v
    case Str(text) => StringNode(text)
    case Scalar(word) => Skip(Plain(word))
    case Arr(items) => Group('[', ItemNodes(items, "", gap))
    case Obj(fields) => Group('{', FieldNodes(fields, "", gap))
  }

  function ItemNodes(items: seq<Json>, before: string, gap: string): seq<Node>
    decreases items
  {
    if items == [] then []
    else [Skip(Plain(before))] + ([NodeOf(items[0], gap)] + ItemNodes(items[1..], "," + gap, gap))
  }

  function FieldNodes(fields: seq<Field>, before: string, gap: string): seq<Node>
    decreases fields
  {
    if fields == [] then []
    else
      [Skip(Plain(before))] +
      ([StringNode(fields[0].name)] +
       ([Skip(Plain(":" + gap))] + ([NodeOf(fields[0].value, gap)] + FieldNodes(fields[1..], "," + gap, gap))))
  }

  /** These nodes are well formed and make up this text. */
  predicate Spell(nodes: seq<Node>, text: string) {
    WellNodes(nodes) && NodesText(nodes) == text
  }

  lemma SpellCons(n: Node, text: string, nodes: seq<Node>, rest: string)
    requires WellNode(n) && NodeText(n) == text && Spell(nodes, rest)
    ensures Spell([n] + nodes, text + rest)
  {
    assert ([n] + nodes)[1..] == nodes;
  }

  lemma {:induction false} PiecesSpell(s: string)
    ensures PiecesText(PiecesOf(s)) == Escape(s) && WellPieces(PiecesOf(s), '"')
  {
    if s != "" {
      PiecesSpell(s[1..]);
      assert PiecesOf(s)[1..] == PiecesOf(s[1..]);
    }
  }

  lemma StringSpells(s: string)
    ensures WellNode(StringNode(s)) && NodeText(StringNode(s)) == InQuotes(s)
  {
    PiecesSpell(s);
  }

  lemma SeparatorIsPlain(c: char, gap: string)
    requires IsPlain(gap) && (c == ',' || c == ':')
    ensures IsPlain([c] + gap)
  {
  }

  lemma {:induction false} NodeSpells(v: Json, gap: string)
    requires WellJson(v) && IsPlain(gap)
    ensures WellNode(NodeOf(v, gap)) && NodeText(NodeOf(v, gap)) == Write(v, gap)
    decreases v
  {
    match v
    case Str(text) => StringSpells(text);
    case Scalar(_) =>
    case Arr(items) => ItemsSpell(items, "", gap);
    case Obj(fields) => FieldsSpell(fields, "", gap);
  }

  lemma {:induction false} ItemsSpell(items: seq<Json>, before: string, gap: string)
    requires WellItems(items) && IsPlain(gap) && IsPlain(before)
    ensures Spell(ItemNodes(items, before, gap), WriteItems(items, before, gap))
    decreases items
  {
    if items != [] {
      var rest, written := ItemNodes(items[1..], "," + gap, gap), WriteItems(items[1..], "," + gap, gap);
      SeparatorIsPlain(',', gap);
      ItemsSpell(items[1..], "," + gap, gap);
      NodeSpells(items[0], gap);
      var value, text := NodeOf(items[0], gap), Write(items[0], gap);
      SpellCons(value, text, rest, written);
      SpellCons(Skip(Plain(before)), before, [value] + rest, text + written);
    }
  }

  lemma {:induction false} FieldsSpell(fields: seq<Field>, before: string, gap: string)
    requires WellFields(fields) && IsPlain(gap) && IsPlain(before)
    ensures Spell(FieldNodes(fields, before, gap), WriteFields(fields, before, gap))
    decreases fields
  {
    if fields != [] {
      SeparatorIsPlain(',', gap);
      FieldsSpell(fields[1..], "," + gap, gap);
      NodeSpells(fields[0].value, gap);
      FieldSpells(fields, before, gap);
    }
  }

  /** A first field and the others. */
  lemma FieldSpells(fields: seq<Field>, before: string, gap: string)
    requires fields != [] && IsPlain(gap) && IsPlain(before)
    requires Spell(FieldNodes(fields[1..], "," + gap, gap), WriteFields(fields[1..], "," + gap, gap))
    requires WellNode(NodeOf(fields[0].value, gap))
    requires NodeText(NodeOf(fields[0].value, gap)) == Write(fields[0].value, gap)
    ensures Spell(FieldNodes(fields, before, gap), WriteFields(fields, before, gap))
  {
    var rest, written := FieldNodes(fields[1..], "," + gap, gap), WriteFields(fields[1..], "," + gap, gap);
    var value, text := NodeOf(fields[0].value, gap), Write(fields[0].value, gap);
    var name := StringNode(fields[0].name);
    SpellCons(value, text, rest, written);
    SeparatorIsPlain(':', gap);
    SpellCons(Skip(Plain(":" + gap)), ":" + gap, [value] + rest, text + written);
    StringSpells(fields[0].name);
    var behind, tail := [Skip(Plain(":" + gap))] + ([value] + rest), (":" + gap) + (text + written);
    SpellCons(name, InQuotes(fields[0].name), behind, tail);
    SpellCons(Skip(Plain(before)), before, [name] + behind, InQuotes(fields[0].name) + tail);
  }

  // ----- Scripts with values in them -----

  /** A written object or array and what stands in front of it: code, strings and comments. */
  datatype Entry = Entry(front: seq<Filler>, value: Json)

  predicate WellFillers(fillers: seq<Filler>) {
    fillers == [] || (WellFiller(fillers[0]) && WellFillers(fillers[1..]))
  }

  predicate WellEntries(entries: seq<Entry>) {
    entries == [] || (WellFillers(entries[0].front) && WellJson(entries[0].value) &&
                      (entries[0].value.Arr? || entries[0].value.Obj?) && WellEntries(entries[1..]))
  }

  function FillersText(fillers: seq<Filler>): string {
    if fillers == [] then "" else FillerText(fillers[0]) + FillersText(fillers[1..])
  }

  function EntriesText(entries: seq<Entry>, end: seq<Filler>, gap: string): string {
    if entries == [] then FillersText(end)
    else FillersText(entries[0].front) + (Write(entries[0].value, gap) + EntriesText(entries[1..], end, gap))
  }

  /** The values as written, in order. */
  function Written(entries: seq<Entry>, gap: string): seq<string> {
    if entries == [] then [] else [Write(entries[0].value, gap)] + Written(entries[1..], gap)
  }

  function FillerNodes(fillers: seq<Filler>, rest: seq<Node>): seq<Node> {
    if fillers == [] then rest else [Skip(fillers[0])] + FillerNodes(fillers[1..], rest)
  }

  function EntryNodes(entries: seq<Entry>, end: seq<Filler>, gap: string): seq<Node> {
    if entries == [] then FillerNodes(end, [])
    else FillerNodes(entries[0].front, [NodeOf(entries[0].value, gap)] + EntryNodes(entries[1..], end, gap))
  }

  lemma {:induction false} FillersSpell(fillers: seq<Filler>, nodes: seq<Node>, rest: string)
    requires WellFillers(fillers) && Spell(nodes, rest)
    ensures Spell(FillerNodes(fillers, nodes), FillersText(fillers) + rest)
    ensures Groups(FillerNodes(fillers, nodes)) == Groups(nodes)
  {
    if fillers == [] {
      assert "" + rest == rest;
    } else {
      var f, behind := fillers[0], FillerNodes(fillers[1..], nodes);
      FillersSpell(fillers[1..], nodes, rest);
      SpellCons(Skip(f), FillerText(f), behind, FillersText(fillers[1..]) + rest);
      Sequences.Regroup(FillerText(f), FillersText(fillers[1..]), rest);
      GroupsCons(Skip(f), behind);
    }
  }

  lemma GroupsCons(n: Node, nodes: seq<Node>)
    ensures Groups([n] + nodes) == GroupOf(n) + Groups(nodes)
  {
    assert ([n] + nodes)[1..] == nodes;
  }

  lemma {:induction false} EntriesSpell(entries: seq<Entry>, end: seq<Filler>, gap: string)
    requires WellEntries(entries) && WellFillers(end) && IsPlain(gap)
    ensures Spell(EntryNodes(entries, end, gap), EntriesText(entries, end, gap))
    ensures Groups(EntryNodes(entries, end, gap)) == Written(entries, gap)
  {
    if entries == [] {
      FillersSpell(end, [], "");
      assert FillersText(end) + "" == FillersText(end);
    } else {
      var n, nodes := NodeOf(entries[0].value, gap), EntryNodes(entries[1..], end, gap);
      var text, rest := Write(entries[0].value, gap), EntriesText(entries[1..], end, gap);
      NodeSpells(entries[0].value, gap);
      EntriesSpell(entries[1..], end, gap);
      SpellCons(n, text, nodes, rest);
      GroupsCons(n, nodes);
      FillersSpell(entries[0].front, [n] + nodes, text + rest);
    }
  }

  /** What is found among code, strings and comments is exactly the written values, in order, up to 64. */
  lemma ValuesFound(entries: seq<Entry>, end: seq<Filler>, gap: string)
    requires WellEntries(entries) && WellFillers(end) && IsPlain(gap)
    ensures var t := EntriesText(entries, end, gap); Texts(t, Roots(t)) == FirstMany(Written(entries, gap))
  {
    EntriesSpell(entries, end, gap);
    ScriptRoots(EntryNodes(entries, end, gap));
  }

  /** A value behind plain code is found as written, whatever its strings hold. */
  lemma ValueFound(front: string, v: Json, gap: string)
    requires IsPlain(front) && WellJson(v) && IsPlain(gap) && (v.Arr? || v.Obj?)
    ensures var t := front + Write(v, gap); Texts(t, Roots(t)) == [Write(v, gap)]
  {
    var fillers := [Plain(front)];
    assert fillers[1..] == [] && WellFiller(fillers[0]);
    assert WellFillers(fillers);
    var e := Entry(fillers, v);
    assert [e][1..] == [] && WellEntries([e]);
    assert front + "" == front && Write(v, gap) + "" == Write(v, gap);
    ValuesFound([e], [], gap);
  }

  /** Read back by the scanner itself. */
  method ReadValues(entries: seq<Entry>, end: seq<Filler>, gap: string) returns (roots: seq<string>)
    requires WellEntries(entries) && WellFillers(end) && IsPlain(gap)
    ensures roots == FirstMany(Written(entries, gap))
  {
    ValuesFound(entries, end, gap);
    roots := ExtractJsonRoots(EntriesText(entries, end, gap));
  }
}
