# Verified model of the browser extension's core

This Dafny project models the parts of the FluxDown browser extension that carry state, run
concurrently or compute something intricate, and proves what they are for. Each module follows one
source file; code that changes things step by step is modelled as methods with loops or as classes
whose fields the methods update, and is proved against functions that say what it should compute.

| module | source | subject |
|---|---|---|
| Glob | fluxDown/rules/glob.ts | wildcard matcher: fast paths and greedy loop against the declarative language |
| RegexParser, RegexWriting | fluxDown/rules/regex-safety.ts | the pattern parser, and the round trip from written patterns to trees |
| RegexCharacters | fluxDown/rules/regex-safety.ts | which characters a written pattern means, and the verdict in these terms |
| RegexSafety, RegexLanguage | fluxDown/rules/regex-safety.ts | the structural analyser, the meaning of its verdict, and the language it is about |
| Engine | fluxDown/rules/engine.ts | rule activation, ordering, the extension index and the classifiers |
| RuleSync | fluxDown/background/rule-sync.ts | merging replies into the stored packs, and the synchronisation coordinator |
| Params, Continuation | fluxDown/utils/filename.ts | Content-Disposition parameters and numbered segments |
| JsonRoots, JsonScripts, JsonValues | fluxDown/utils/dash-manifest.ts | extraction of JSON roots from text, and the round trips from scripts and values |
| ManifestGroups | fluxDown/utils/media-candidates.ts | grouping of manifests as connected components, and track merging |
| MediaBinding | fluxDown/background/media-binding.ts | binding candidates to elements |
| TabState, TabArchive, TabResources, OrderedMaps | fluxDown/background/tab-state.ts | the state of a tab, its archive of played sessions, its bounds, evictions and generations |
| Replication | fluxDown/page/media-tracker.ts | element states on their way from sensor to tab, with resync |
| Intercept | fluxDown/background/intercept.ts | the two layers that claim a download |
| LinkCapture | fluxDown/utils/link-capture.ts | the registry of context-menu captures |
| NmhPool | fluxDown/utils/nmh-dedicated.ts | the pool of dedicated native-messaging ports |
| SettingsCache | fluxDown/background/settings-cache.ts | the versioned settings cache |
| Dispatch | fluxDown/utils/download-dispatch.ts | bounded concurrency and the batch sender |
| Options, Sequences, Sorting, Numerals | | notions that several of these share |

Concurrency is modelled as steps that are atomic between awaits: each event handler is a method, the
invariant of the class holds between any two of them, and ghost fields record the history (requests,
posts, answers, runs) that the guarantees speak about. What comes from outside (replies, snapshots,
verdicts of settings, exceptions) is a parameter of the step. URL parsing, charset decoders, MIME
tables, regular-expression execution and pack validation are function-valued parameters.

Five intended properties do not hold without a condition:

- The two interception layers can send the same download twice. The branch for link captures claims the
  download without looking at the fallback's mark (fluxDown/background/intercept.ts:730-752).
  `Intercept.DoubleSendExactly` gives the exact condition, `Intercept.BothLayersCanSend` a run.
- A tab can lose a sensor's elements without asking for them again, in two ways. A status or configuration
  message that reaches a tab which does not know the sensor registers it without a resync
  (fluxDown/background/tab-state.ts:266-285; `Replication.StatusHidesLoss`). And a page change of the top
  frame empties the elements of all frames but keeps their sensors registered, while only the top frame's
  sensor resets (fluxDown/background/tab-state.ts:144-192, fluxDown/background/messages.ts:319-325,
  fluxDown/entrypoints/sensor.content.ts:505-510; `Replication.PageChangeHidesLoss`). The model keeps the
  set of elements hidden by these two events; a flush, a removal or a reset takes out of it what it repairs.
  When all is quiet the tab equals what was last sent if and only if that set is empty
  (`Replication.Link.QuietExactly`); every other loss is noticed (`Replication.Link.LossIsNoticed`) and
  repaired (`Replication.ComesToRest`, `Replication.LossIsRepaired`).
- A change notification detaches the load under way, so a second load can start beside it although a
  single one is intended (fluxDown/background/settings-cache.ts:25-28). Two loads are under way at some
  point of a run exactly when `Get` starts one with neither a value nor a marker there while another is
  under way (`SettingsCache.Cache.OverlapExactly`); a notification during a load makes that reachable
  (`SettingsCache.NotificationDoubles`), without one it is not. The cache is nevertheless never stale:
  `SettingsCache.Cache.CacheIsFresh`.
- Neighbouring unbounded repeats whose characters overlap are to be rejected, but the set of `\S`, and that of
  a negated class with a member beyond ASCII, stands for no character beyond ASCII at all
  (fluxDown/rules/regex-safety.ts:53-97, 259-288), so `\S*` in front of a starred e with an acute accent
  passes (`RegexCharacters.OverlapMissed`). `RegexCharacters.MissesNothingExactly` and
  `RegexCharacters.WatchedExactly` give the exact condition on the atom; on ASCII nothing is ever missed
  (`RegexCharacters.NothingShared`).
- A session that is back on an element is to leave the archive, but a message that reports it first and then
  another element leaving it archives it again (fluxDown/background/tab-state.ts:669-681;
  `TabArchive.PlayingYetPast`). `TabArchive.PastExactly` says when.

Sharing a track file is not transitive (`ManifestGroups.SharingIsNotTransitive`), so groups of manifests are
connected components, not cliques (`ManifestGroups.GroupManifests`).

`dafny verify dfyconfig.toml` checks the project.

## Model

| member | source | states |
|---|---|---|
| `Glob.AsciiLower` | fluxDown/rules/glob.ts:9-12 | lower-casing touches ASCII letters only and is settled after one application |
| `Glob.IndexOf` | fluxDown/rules/glob.ts:50-52 | finds the first occurrence at or after a position, or tells that there is none |
| `Glob.LeftmostSuffices` | fluxDown/rules/glob.ts:49-53 | if the remaining pieces can be placed behind any occurrence of a piece, they can be placed behind its leftmost one: greedy search loses nothing |
| `Glob.CutsAreThePattern` | fluxDown/rules/glob.ts:18-19 | cutting a text into the literal pieces with arbitrary gaps is the same as matching character by character with `*` as any string |
| `Glob.PiecesAreThePattern` | fluxDown/rules/glob.ts:24-59 | anchored head, ordered middles and anchored tail accept exactly the pattern's language |
| `Glob.GreedyLoop` | fluxDown/rules/glob.ts:38-58 | the general loop decides the anchored-pieces relation for two or more pieces |
| `Glob.MiddlePiece` | fluxDown/rules/glob.ts:34-37 | for `*x*` the relation is that x occurs somewhere |
| `Glob.CompiledGlob` | fluxDown/rules/glob.ts:21-59 | for every pattern and text, fast paths and loop alike accept exactly when the text can be cut into the pieces, which is the wildcard language of the lower-cased pattern |
| `Glob.UrlGlobMatch` | fluxDown/rules/glob.ts:62-64 | matching is the wildcard language of both sides lower-cased |
| `RegexParser.AddRange` | fluxDown/rules/regex-safety.ts:49-51 | marks exactly the indices of the codes from lo to hi |
| `RegexParser.Parser.ReadEscape` | fluxDown/rules/regex-safety.ts:216-250 | reads one escape as the rules for escapes say, or throws the same reason |
| `RegexParser.Parser.ClassMember` | fluxDown/rules/regex-safety.ts:266-282 | one turn of the class loop adds an atom or a range; an end point that is a category leaves the `-` to be read again |
| `RegexParser.Parser.ParseClass` | fluxDown/rules/regex-safety.ts:259-288 | the loop reads the union of the members, folded, then negated |
| `RegexParser.Parser.ParseQuantifier` | fluxDown/rules/regex-safety.ts:132-160 | reads bounds as specified; braces that are no quantifier are left alone |
| `RegexParser.Parser.ParseGroup` | fluxDown/rules/regex-safety.ts:195-213 | reads the opening, the alternatives and the closing parenthesis, or throws the specified reason |
| `RegexParser.Parser.ParseAtom` | fluxDown/rules/regex-safety.ts:162-186 | reads one atom as specified |
| `RegexParser.Parser.ParseAlts` | fluxDown/rules/regex-safety.ts:115-130 | the loop with its growing last branch reads what the recursive specification reads |
| `RegexParser.Parser.Parse` | fluxDown/rules/regex-safety.ts:109-113 | the whole text must be read, otherwise the reason is thrown |
| `RegexWriting.QuantRead` | fluxDown/rules/regex-safety.ts:132-160 | every quantifier, lazy or not, is read as its bounds |
| `RegexWriting.ClassRead` | fluxDown/rules/regex-safety.ts:259-288 | the members of a class as written are read as the union of their sets |
| `RegexWriting.AltsRead` | fluxDown/rules/regex-safety.ts:115-130 | alternatives as written are read as their branches, at any depth |
| `RegexWriting.WriteThenParse` | fluxDown/rules/regex-safety.ts:105-213 | every well-formed pattern is read as the tree it was written from, whatever forms of characters, classes, quantifiers and groups it uses |
| `RegexWriting.WrittenVerdict` | fluxDown/rules/regex-safety.ts:362-379 | parsing and analysing a written pattern accepts it exactly when its tree is safe |
| `RegexCharacters.SetMeans` | fluxDown/rules/regex-safety.ts:49-97 | the set of a written character, dot, category or class holds exactly the ASCII characters that it says, letters in both cases, and of all others either all or none |
| `RegexCharacters.MatchesWhatItSays` | fluxDown/rules/regex-safety.ts:65-97 | so such an atom matches an ASCII character exactly when the pattern says it, whatever the case of its letters |
| `RegexCharacters.MissesNothingExactly` | fluxDown/rules/regex-safety.ts:53-97 | the set of an atom misses a character that the atom means exactly for `\S`, alone or in a class, and for negated classes that have a member beyond ASCII and do not list all characters there |
| `RegexCharacters.NeighboursMean` | fluxDown/rules/regex-safety.ts:347-355 | the sets of neighbouring unbounded repeats are disjoint exactly when no ASCII character is common to two of the written pieces and not both reach beyond ASCII |
| `RegexCharacters.GroupMeans` | fluxDown/rules/regex-safety.ts:309-339 | a repeated group is fine exactly when, as written, an endless one has no repeat inside at any depth and a repeated choice consists of words of which none begins another |
| `RegexCharacters.VerdictByCharacters` | fluxDown/rules/regex-safety.ts:330-379 | a written pattern passes exactly when in every alternative at any depth neighbouring repeats have no character in common and repeated groups are fine, and the weighted count of repeats stays within 4 |
| `RegexCharacters.NothingShared` | fluxDown/rules/regex-safety.ts:347-355 | in an accepted pattern no ASCII character, and none at all where the sets miss nothing, belongs to two neighbouring unbounded repeats, at any depth |
| `RegexCharacters.WatchedExactly` | fluxDown/rules/regex-safety.ts:347-355 | next to an atom all overlapping neighbours are rejected exactly when its own set misses nothing |
| `RegexCharacters.OverlapMissed` | fluxDown/rules/regex-safety.ts:88-96 | an accepted pattern of two starred atoms that both match one letter |
| `Numerals.HexDigitExactly` | fluxDown/rules/regex-safety.ts:99-100 | a hexadecimal digit, in capitals or not, stands for its place among the sixteen |
| `RegexSafety.Overlaps` | fluxDown/rules/regex-safety.ts:59-63 | two character sets overlap exactly when some index is in both |
| `RegexSafety.RepeatFreeTree` | fluxDown/rules/regex-safety.ts:303-307 | the repeat test is negative exactly when no item of any branch at any depth repeats |
| `RegexSafety.IsPrefixFreeLiterals` | fluxDown/rules/regex-safety.ts:310-327 | accepts exactly the alternatives that are non-empty literal words, none a prefix of another |
| `RegexSafety.UniqueReading` | fluxDown/rules/regex-safety.ts:309-310 | words of which none is a prefix of another read every text in at most one way |
| `RegexSafety.RunClashes` | fluxDown/rules/regex-safety.ts:350-351 | an unbounded item clashes exactly when its set overlaps one of the run's sets |
| `RegexSafety.AnalyzeOne` | fluxDown/rules/regex-safety.ts:333-357 | one item of the loop, run and counter included, follows the specification of the analysis |
| `RegexSafety.Analyze` | fluxDown/rules/regex-safety.ts:330-360 | the analyser with its mutable counter and run computes the specified verdict, first problem first |
| `RegexSafety.AcceptedExactly` | fluxDown/rules/regex-safety.ts:330-360 | accepted exactly when at every depth no branch holds a forbidden group or overlapping neighbouring unbounded items, and the weighted count of unbounded repeats stays within 4 |
| `RegexSafety.AcceptedGroups` | fluxDown/rules/regex-safety.ts:336-339 | in an accepted pattern nothing inside an unboundedly repeated group repeats, and a repeated choice is a prefix code, so a text reads as its branches in at most one way |
| `RegexSafety.RunIsAdjacency` | fluxDown/rules/regex-safety.ts:347-355 | the run kept by the loop is the set of unbounded items separated from here only by optional or zero-width ones |
| `RegexSafety.ExpansionWithinWeight` | fluxDown/rules/regex-safety.ts:343 | writing out finite repeats yields at most as many unbounded repeats as the weighted counter says |
| `RegexSafety.AcceptedExpansion` | fluxDown/rules/regex-safety.ts:24-25 | an accepted pattern with its finite repeats written out has at most 4 unbounded repeats |
| `RegexLanguage.ExpansionKeepsLanguage` | fluxDown/rules/regex-safety.ts:330-360 | writing out finite repeats, the form the count is about, matches exactly the same texts |
| `Engine.RevocationOf` | fluxDown/rules/engine.ts:593-605 | hard if some hard entry hits the rule's version, else soft if some entry does, else none |
| `Engine.StatusOf` | fluxDown/rules/engine.ts:640-680 | fixes every status: too new, hard-revoked, paused, soft-revoked, disabled or active, each exactly under its condition and in this precedence |
| `Engine.LiveExactly` | fluxDown/rules/engine.ts:593-680 | when a rule is live, field by field: community packs only while switched on, unexpired and under a fresh revocation document, a softly revoked rule only once acknowledged in the document's own sequence |
| `Engine.OneMoreExclusion` | fluxDown/rules/engine.ts:443-450 | one more exclusion takes away exactly the contexts it matches |
| `Engine.ShortInputsOnly` | fluxDown/rules/engine.ts:345-354 | what a regex says of inputs beyond 2048 characters is of no consequence to rules of untrusted tiers |
| `Engine.Activate` | fluxDown/rules/engine.ts:641-680 | the active rules are the live rules of each pack in turn, with repetitions, numbered from 0 in that order |
| `Engine.LiveAreSupplied` | fluxDown/rules/engine.ts:641-680 | a rule is among the live ones exactly when some pack supplies it and no pause, revocation, missing acknowledgement or override holds it back |
| `Engine.EvaluationOrder` | fluxDown/rules/engine.ts:683-688 | local rules come before official, plugin, community and builtin ones in this order, within a tier higher priorities first, then earlier positions |
| `Engine.SortSorts` | fluxDown/rules/engine.ts:683-688 | sorting by tier, descending priority and order gives an ordered permutation |
| `Engine.CompiledRules.constructor` | fluxDown/rules/engine.ts:641-690 | the list that all queries scan is ordered and holds exactly the numbered live rules, each as often as it was supplied |
| `Engine.FirstIsHead` | fluxDown/rules/engine.ts:849-876 | the first match is the head of all matches |
| `Engine.BucketComplete` | fluxDown/rules/engine.ts:532-540 | scanning an extension's bucket finds the same first match and the same matches as scanning all rules |
| `Engine.ExtIndex.Candidates` | fluxDown/rules/engine.ts:532-540 | whatever earlier queries cached, the candidates for an extension are its bucket |
| `Engine.FirstHit` | fluxDown/rules/engine.ts:564-569 | scanning candidates returns the first match of a linear scan over all rules |
| `Engine.AllHits` | fluxDown/rules/engine.ts:863-875 | scanning candidates returns all matches of a linear scan, in order |
| `Engine.Classifier.Classify` | fluxDown/rules/engine.ts:561-571 | the type of the first matching rule in a linear scan, `other` if none matches |
| `Engine.CompiledRules.ClassifyResponse` | fluxDown/rules/engine.ts:849-861 | the decision of the first participating rule that matches, in tier, priority and position order, independent of the caches |
| `Engine.CompiledRules.ExplainResponse` | fluxDown/rules/engine.ts:863-875 | all participating matches in order, whose head is the decision of classifyResponse |
| `Engine.RestoredClassifierAgrees` | fluxDown/rules/engine.ts:573-581 | a classifier rebuilt from the serialised rules answers like the original on every input |
| `Engine.ClassifiersAgree` | fluxDown/rules/engine.ts:573-581 | classify and createClassifier(classifyRules()) give the same type for every URL and MIME type, whatever either has cached |
| `Engine.WinnerFound` | fluxDown/rules/engine.ts:683-688 | the first match of the ordered list is the minimum of the evaluation order among all matching rules |
| `Engine.Decide` | fluxDown/rules/engine.ts:641-861 | from packs to decision: of the live rules numbered in pack order, the one first by tier, priority and position among those that take part and match decides, or nothing does when none matches |
| `Params.SplitParams` | fluxDown/utils/filename.ts:365-387 | the character loop computes the specified pieces |
| `Params.JoinPieces` | fluxDown/utils/filename.ts:365-387 | the pieces of any string joined with `;` are that string |
| `Params.PiecesAreWhole` | fluxDown/utils/filename.ts:365-387 | no piece is cut inside: scanned alone it is one piece again |
| `Params.ReadQuoted` | fluxDown/utils/filename.ts:393-402 | reads a quoted string up to its closing quote, undoing the escapes of quote and backslash only |
| `Params.Unquote` | fluxDown/utils/filename.ts:389-404 | a quoted value yields its text, any other value itself, trimmed |
| `Params.ParseParams` | fluxDown/utils/filename.ts:531-549 | the loop over the pieces yields the name and value pairs, names in lower case |
| `Params.RenderThenParse` | fluxDown/utils/filename.ts:365-404 | any list of parameters, each written quoted or, where its value allows, plain, with any blanks in front, is read back unchanged (section 5.6.4 of RFC 9110) |
| `Params.QuotedBits` | fluxDown/utils/filename.ts:393-402 | however a quoted string is written, with escapes of quotes and backslashes and with backslashes of their own, it reads as its characters, up to its closing quote or the end |
| `Params.QuotedParam` | fluxDown/utils/filename.ts:365-404 | a parameter whose value is quoted in any such way is one piece and is read as its name and those characters |
| `Params.UnquoteWritten` | fluxDown/utils/filename.ts:389-404 | undoing a value's writing, quoted or plain, gives the value |
| `Continuation.PercentDecodeLatin1` | fluxDown/utils/filename.ts:314-325 | computes the specified bytes: valid `%XX` pairs decoded, every other character as its byte |
| `Continuation.DecodeEncode` | fluxDown/utils/filename.ts:314-325 | decoding a percent-encoded byte string gives it back, whichever bytes were left plain |
| `Continuation.GatherSegments` | fluxDown/utils/filename.ts:421-434 | the map of numbered segments, the first of equal numbers winning |
| `Continuation.AssembleSegments` | fluxDown/utils/filename.ts:435-446 | concatenates the segments from 0 on, or nothing when one is missing or malformed |
| `Continuation.DecodeContinuation` | fluxDown/utils/filename.ts:421-452 | gathering, assembling and decoding compute the specified name |
| `Continuation.Reassembly` | fluxDown/utils/filename.ts:421-452 | a value chopped into numbered segments, each percent-encoded or as it is, is the original byte string again, in whatever order the segments stand, in the charset that a starred first one names (section 3 of RFC 2231) |
| `Continuation.HeaderReassembly` | fluxDown/utils/filename.ts:421-452 | the same through the whole header text: a value chopped into numbered segments and written as parameters in any order, quoted or plain, is split, unquoted, gathered and decoded to the original bytes in the declared charset |
| `Continuation.NameFromHeader` | fluxDown/utils/filename.ts:517-561 | the name is that of the first `filename*` if it decodes to something not blank, else that of the numbered segments, else that of the first `filename`, else empty |
| `Continuation.StarredName` | fluxDown/utils/filename.ts:531-554 | bytes and charset written into the first `filename*` of a header are read back, trimmed, whatever other parameters the header holds |
| `Continuation.SegmentedName` | fluxDown/utils/filename.ts:531-557 | bytes chopped into numbered segments and written into a header in any order are read back, trimmed, unless a `filename*` gives a name of its own |
| `Continuation.PlainFileName` | fluxDown/utils/filename.ts:551-560 | without segments and without a `filename*` that shows, the name is the first plain `filename`, read and trimmed |
| `Continuation.ContiguousOrNothing` | fluxDown/utils/filename.ts:435-446 | the segments assemble exactly when all numbers below their count are present and each is well formed |
| `JsonRoots.RootsInOrder` | fluxDown/utils/dash-manifest.ts:60-132 | the roots are disjoint, left to right, and open and close with matching brackets |
| `JsonRoots.RootIsATree` | fluxDown/utils/dash-manifest.ts:60-132 | outside strings and comments the brackets of a root form exactly one well-nested tree |
| `JsonRoots.RootAlone` | fluxDown/utils/dash-manifest.ts:60-132 | scanning a returned root on its own yields exactly that root |
| `JsonRoots.RootsAreSound` | fluxDown/utils/dash-manifest.ts:60-132 | every extracted text is one tree of brackets and its own only root |
| `JsonRoots.Skip` | fluxDown/utils/dash-manifest.ts:70-105 | the comment and quote states of the loop follow the lexer |
| `JsonRoots.ExtractJsonRoots` | fluxDown/utils/dash-manifest.ts:60-132 | the loop over stack, quote and comment flags returns exactly the specified roots |
| `JsonScripts.ScriptRoots` | fluxDown/utils/dash-manifest.ts:56-132 | what is found in a script of code, strings, comments and bracketed groups, nested to any depth, is exactly its groups, as written and in order, the first 64 |
| `JsonScripts.ReadScript` | fluxDown/utils/dash-manifest.ts:60-132 | the scanner itself reads every such script that way |
| `JsonValues.ValuesFound` | fluxDown/utils/dash-manifest.ts:56-132 | among code, strings and comments the written JSON objects and arrays are found, exactly as written and in order, the first 64 |
| `JsonValues.ValueFound` | fluxDown/utils/dash-manifest.ts:60-132 | behind any code without quotes, brackets and slashes a written object or array is the only root, whatever quotes, backslashes and brackets its strings hold |
| `JsonValues.ReadValues` | fluxDown/utils/dash-manifest.ts:60-132 | the scanner itself gives back the written values |
| `ManifestGroups.SharesSymmetric` | fluxDown/utils/media-candidates.ts:379-387 | sharing a track file is symmetric |
| `ManifestGroups.AddItem` | fluxDown/utils/media-candidates.ts:426-437 | one turn of the loop merges exactly the groups the item touches, at the place of the first one, and keeps groups apart, connected and in the order of their first items |
| `ManifestGroups.GroupItems` | fluxDown/utils/media-candidates.ts:424-438 | the groups hold every item once, are pairwise apart, and each is connected |
| `ManifestGroups.GroupsAreComponents` | fluxDown/utils/media-candidates.ts:424-438 | two items are grouped together exactly when a chain of shared track files connects them |
| `ManifestGroups.OrderIndependent` | fluxDown/utils/media-candidates.ts:424-438 | for any two orders of the same items the same items are grouped together |
| `ManifestGroups.SharingIsNotTransitive` | fluxDown/utils/media-candidates.ts:379-387 | three items of which the first and the last share nothing, and yet every grouping of the three puts them together |
| `ManifestGroups.PutAll` | fluxDown/utils/media-candidates.ts:411-413 | setting by period and file keeps for every key the track set last |
| `ManifestGroups.MergeTracks` | fluxDown/utils/media-candidates.ts:406-415 | every period-and-file key of any list survives once, with the track of the last list that has it, sorted |
| `ManifestGroups.MergeGroup` | fluxDown/utils/media-candidates.ts:439-462 | the merged manifest carries for every key the newest member's track, the newest index and URL, the oldest key, and the keys of all members from old to new |
| `ManifestGroups.GroupManifests` | fluxDown/utils/media-candidates.ts:424-463 | the whole function: every item is a member of one entry, each entry is its members merged from old to new, two items are in one entry exactly when a chain of shared track files connects them, and the entries come in the order of their first members |
| `NmhPool.Pool.Call` | fluxDown/utils/nmh-dedicated.ts:175-186 | the request is queued last in its lane with the next id; while another is in flight nothing is posted and nothing answered, otherwise its queue goes on as for `Pump`, over the open port if there is one; other lanes are untouched, and the invariant of the whole pool is kept |
| `NmhPool.Pool.Pump` | fluxDown/utils/nmh-dedicated.ts:137-172 | an idle lane posts the head of its queue with its timer armed and the rest left waiting, or, when no port opens, fails the requests one by one; a busy lane or an empty queue posts nothing |
| `NmhPool.Pool.OnMessage` | fluxDown/utils/nmh-dedicated.ts:121-131 | only the reply to the request in flight on the current port resolves it, and then the next of the queue is posted on that port; other replies change nothing |
| `NmhPool.Pool.OnDisconnect` | fluxDown/utils/nmh-dedicated.ts:105-112 | a stale port's disconnect changes nothing; the current one fails the request in flight, and the queue goes on over a new port |
| `NmhPool.Pool.OnTimeout` | fluxDown/utils/nmh-dedicated.ts:155-161 | only the request in flight times out; its port is closed and the queue goes on over a new one |
| `NmhPool.Pool.OnIdle` | fluxDown/utils/nmh-dedicated.ts:87-95 | an idle lane loses its port and its place in the map, a busy one loses nothing |
| `NmhPool.Pool.OnePerKey` | fluxDown/utils/nmh-dedicated.ts:60-65 | lanes dropped from the map hold no request and no port, so per key at most one port is open and one request in flight |
| `NmhPool.Pool.ResultsAnswer` | fluxDown/utils/nmh-dedicated.ts:97-102 | every request of a lane is resolved once or still waiting, in the order of the calls |
| `NmhPool.Pool.NothingStrands` | fluxDown/utils/nmh-dedicated.ts:137-172 | a waiting request implies one in flight in a lane that the map still holds |
| `NmhPool.Pool.PostsBelow` | fluxDown/utils/nmh-dedicated.ts:164 | posts go out in the order of their message ids on each lane |
| `LinkCapture.Registry.Find` | fluxDown/utils/link-capture.ts:147-153 | the first entry with the download's id, or with its normalised URL while the id is unknown |
| `LinkCapture.Registry.Capture` | fluxDown/utils/link-capture.ts:91-100 | answers false at once when an undecided capture of the URL exists, otherwise adds the only undecided one |
| `LinkCapture.Registry.Started` | fluxDown/utils/link-capture.ts:101-106 | a registered entry gets the download id, an entry no longer registered keeps what it had; the download is cancelled exactly when the entry is registered and abandoned |
| `LinkCapture.Registry.Failed` | fluxDown/utils/link-capture.ts:107-113 | a download that cannot start is removed and, if still open, resolved to false; the other entries stay in order |
| `LinkCapture.Registry.Abandon` | fluxDown/utils/link-capture.ts:163-169 | a timeout resolves an undecided capture to false and marks it abandoned, keeping it registered; of a decided one only the timer changes |
| `LinkCapture.Registry.DoClaim` | fluxDown/utils/link-capture.ts:127-134 | the first matching entry, and no other, is removed; it resolves to true exactly when the answer is `claimed`, to false when declined, and an abandoned one stays false; nothing happens to a foreign download |
| `LinkCapture.Registry.Interrupted` | fluxDown/utils/link-capture.ts:137-145 | the first matching entry, and no other, is removed and ends resolved to false; a foreign download changes nothing |
| `LinkCapture.Registry.SentOneWay` | fluxDown/utils/link-capture.ts:85-91 | a capture is decided at most once, true exactly for the claimed ones, so none is both intercepted and sent directly |
| `SettingsCache.Cache.Get` | fluxDown/background/settings-cache.ts:40-55 | a cached value is returned, a current load joined, otherwise one is started; it is started beside another exactly when neither a value nor a marker is there and some load is still under way |
| `SettingsCache.Cache.Complete` | fluxDown/background/settings-cache.ts:45-49 | a load fills the cache only if no notification was delivered since it started |
| `SettingsCache.Cache.Fail` | fluxDown/background/settings-cache.ts:50-53 | a failed load leaves no cache behind |
| `SettingsCache.Cache.Notify` | fluxDown/background/settings-cache.ts:81-90 | a notification empties the cache and detaches the load under way, leaving every load joined only if there is none |
| `SettingsCache.Cache.CacheIsFresh` | fluxDown/background/settings-cache.ts:19-28 | a non-empty cache came from a load started after the last delivered notification and equals storage when none is pending |
| `SettingsCache.Cache.OverlapExactly` | fluxDown/background/settings-cache.ts:25-28 | along every run two loads were under way at once exactly when one was started beside another, and this takes a notification delivered during a load |
| `SettingsCache.NotificationDoubles` | fluxDown/background/settings-cache.ts:81-90 | from every state with a load under way, a notification and a caller lead to two loads at once |
| `SettingsCache.NotificationAlone` | fluxDown/background/settings-cache.ts:81-90 | with no load under way a notification does no harm: the next caller's load is the only one |
| `SettingsCache.LoadsCanOverlap` | fluxDown/background/settings-cache.ts:45-54 | a run in which the completion of an outdated load clears the marker of its successor, so that two loads of the same version are under way |
| `Dispatch.Run.Advance` | fluxDown/utils/download-dispatch.ts:223-226 | an idle worker takes the next index or ends |
| `Dispatch.Run.Return` | fluxDown/utils/download-dispatch.ts:226 | a returned value stands at its index and nowhere else |
| `Dispatch.Run.CallsOnce` | fluxDown/utils/download-dispatch.ts:221-231 | under any scheduling indices are taken once each, in order, and never more calls than the limit are under way |
| `Dispatch.Run.Gather` | fluxDown/utils/download-dispatch.ts:228-231 | unless a call was rejected, every index was called and the results stand in input order |
| `Dispatch.GroupByContext` | fluxDown/utils/download-dispatch.ts:263-275 | items without own fields are grouped by cookies, referrer and headers, all others kept apart, none lost |
| `Dispatch.SplitGroups` | fluxDown/utils/download-dispatch.ts:276-285 | groups of one item go back to the single ones, in order |
| `Dispatch.Units` | fluxDown/utils/download-dispatch.ts:263-288 | the units are a partition of the items, items sharing a unit have one context and no own fields, and no two units could be merged |
| `Dispatch.SentWithinTotal` | fluxDown/utils/download-dispatch.ts:305-310 | the success count is everything exactly when all units succeeded and nothing exactly when none did |
| `Dispatch.Summarize` | fluxDown/utils/download-dispatch.ts:296-327 | one request answers for itself; otherwise the sizes of the successful units are added up, and failure is reported exactly when none succeeded |
| `RuleSync.Environment.Effective` | fluxDown/rules/engine.ts:1073-1075 | the official pack in force is never older than the bundled one |
| `RuleSync.ApplyPlugin` | fluxDown/background/rule-sync.ts:116-145 | the plugin layer follows its specified verdict, problems included |
| `RuleSync.ApplyTier` | fluxDown/background/rule-sync.ts:160-172 | a remote tier follows its specified verdict, problems included |
| `RuleSync.ApplyReply` | fluxDown/background/rule-sync.ts:155-185 | the step-by-step merge gives the packs and problems of the layer-by-layer specification, and `changed` exactly when the packs differ |
| `RuleSync.OfficialTaken` | fluxDown/background/rule-sync.ts:160-172 | an official pack is taken exactly when remote rules are on, its sequence is a whole number above that of the pack in force, and it validates |
| `RuleSync.CommunityTaken` | fluxDown/background/rule-sync.ts:160-172 | a community pack is taken exactly when remote rules are on, its sequence is a whole number above that of the stored pack, if any, and it validates |
| `RuleSync.RevocationsTaken` | fluxDown/background/rule-sync.ts:173-181 | a revocation document is taken exactly when remote rules are on, it is well shaped, and none or an older one is stored |
| `RuleSync.PluginTaken` | fluxDown/background/rule-sync.ts:116-145 | within an epoch a plugin pack is taken exactly when it is newer and validates; another epoch brings any pack that validates, or none at sequence 0, and otherwise changes nothing |
| `RuleSync.ProblemsExactly` | fluxDown/background/rule-sync.ts:116-185 | a reply reports a rollback, an invalid pack, rejected rules or an invalid revocation document exactly in these cases, layer by layer |
| `RuleSync.NewestArrives` | fluxDown/background/rule-sync.ts:155-185 | over any list of replies the packs in force end up at least as new as every valid pack offered on the way |
| `RuleSync.ChangeShows` | fluxDown/background/rule-sync.ts:155-185 | some layer is taken exactly when the packs differ |
| `RuleSync.NoRollback` | fluxDown/background/rule-sync.ts:160-182 | a reply never lowers the effective official, the community or the revocation sequence, nor the plugin sequence within an epoch |
| `RuleSync.NoRollbackEver` | fluxDown/background/rule-sync.ts:155-185 | no list of replies, over any number of exchanges, lowers a remote sequence |
| `RuleSync.EpochMoves` | fluxDown/background/rule-sync.ts:121-132 | the plugin epoch changes exactly with an accepted replacement or an explicit clear, and then pack and epoch are the reply's |
| `RuleSync.LocalOnly` | fluxDown/background/rule-sync.ts:117-120 | with remote rules off, or plugin rules deferred or unanswered, the layers concerned stay as they are |
| `RuleSync.Idempotent` | fluxDown/background/rule-sync.ts:155-185 | applying the same reply again changes nothing |
| `RuleSync.Exchange` | fluxDown/background/rule-sync.ts:229-244 | at most 4 rounds, forced only in the first round of a manual run, another round only after deferral and change; the packs are the replies applied in order |
| `RuleSync.Coordinator.SyncAuto` | fluxDown/background/rule-sync.ts:272-274 | an automatic request starts a run or shares the one under way |
| `RuleSync.Coordinator.SyncManual` | fluxDown/background/rule-sync.ts:272-281 | a manual request starts a run, shares a manual one, or queues behind one that is not |
| `RuleSync.Coordinator.RequestManual` | fluxDown/background/rule-sync.ts:272-281 | every request is answered by a manual run or has a synchronisation queued for it |
| `RuleSync.Coordinator.QueueFires` | fluxDown/background/rule-sync.ts:275-280 | when the awaited run has ended, everyone queued is answered by a manual run, or waits on behind a later run that is not manual |
| `RuleSync.Coordinator.Save` | fluxDown/background/rule-sync.ts:225-245 | what a run saves is built on what is stored, so no remote layer of the stored packs goes back |
| `RuleSync.Coordinator.ScheduleFollowUp` | fluxDown/background/rule-sync.ts:255-261 | at most one follow-up is pending, and only an automatic run schedules one |
| `RuleSync.Coordinator.Finish` | fluxDown/background/rule-sync.ts:265-270 | the end of a run, good or bad, frees the flight it belongs to |
| `RuleSync.Coordinator.Guarantees` | fluxDown/background/rule-sync.ts:204-285 | at most one run at a time; a manual request that met a run that was not manual is answered by a manual run started after it; the stored packs have never gone back |
| `Intercept.AlwaysSafe` | fluxDown/background/intercept.ts:267-528 | over every interleaving in which no claimed link capture overrides the fallback: never two sends at once, at most one success, none around a release |
| `Intercept.ReleaseIsFinal` | fluxDown/background/intercept.ts:561-564 | after a release the mark stays and neither layer sends, whatever follows |
| `Intercept.Keeps` | fluxDown/background/intercept.ts:730-838 | every step but the override keeps the mark with the only layer that may still send |
| `Intercept.DoubleSendExactly` | fluxDown/background/intercept.ts:730-752 | a claimed link capture can lead to a second successful send exactly when the fallback has marked the download by then |
| `Intercept.TakenIsSent` | fluxDown/background/intercept.ts:607-680 | a download that the callback takes is sent once, by the primary layer, when decision, cancel, preparation and send go well, whatever the fallback does in between |
| `Intercept.TakenCanBeSent` | fluxDown/background/intercept.ts:607-680 | and these events, each awaited in its turn, are all that it takes |
| `Intercept.EndsWithout` | fluxDown/background/intercept.ts:561-709 | each way for the primary layer to end without a send leaves the mark released, kept or removed, exactly as listed |
| `Intercept.MaySendExactly` | fluxDown/background/intercept.ts:267-838 | a download can still be sent exactly as long as a layer is on its way to a send, the callback is to come, or nobody has marked it and the fallback has yet to look |
| `Intercept.NotTaken` | fluxDown/background/intercept.ts:711-838 | a download that the callback does not take can still be sent exactly when it cannot be replayed or its transfer page was dealt with in place |
| `Intercept.BothLayersCanSend` | fluxDown/background/intercept.ts:730-752 | a run in which both layers are sending at the same time |
| `Intercept.Interception.StepKeepsValid` | fluxDown/background/intercept.ts:135 | a step of one download keeps every download within the protocol |
| `Intercept.Interception.FilenameCallback` | fluxDown/background/intercept.ts:711-838 | the callback up to its first await takes the specified step and touches no other download |
| `Intercept.Interception.ResolveWithSettings` | fluxDown/background/intercept.ts:682-709 | releases, hands back or goes on to cancel, as specified |
| `Intercept.Interception.AfterCancel` | fluxDown/background/intercept.ts:607-626 | goes on only after a successful cancel; an exception hands back while the filename is unresolved |
| `Intercept.Interception.AfterPreparation` | fluxDown/background/intercept.ts:627-640 | goes on to send, or gives the mark up |
| `Intercept.Interception.AfterPrimarySend` | fluxDown/background/intercept.ts:634-680 | success keeps the mark, failure gives it up |
| `Intercept.Interception.FallbackWakes` | fluxDown/background/intercept.ts:209-251 | the waiting fallback ends when another layer has the download |
| `Intercept.Interception.FallbackConfigured` | fluxDown/background/intercept.ts:341-346 | the fallback goes on only while nobody has marked the download |
| `Intercept.Interception.FallbackJudged` | fluxDown/background/intercept.ts:373-391 | the last test of the table and the fallback's mark are one step |
| `Intercept.Interception.FallbackCancelled` | fluxDown/background/intercept.ts:491-496 | a failed cancel does not stop the fallback |
| `Intercept.Interception.AfterFallbackSend` | fluxDown/background/intercept.ts:499-527 | success keeps the mark, failure removes it |
| `TabState.ArchivedOk` | fluxDown/background/tab-state.ts:246-263 | archiving keeps at most 12 records with distinct frame and session, the ended session among them |
| `TabArchive.EndedSessionsStay` | fluxDown/background/tab-state.ts:648-662 | of up to 12 sessions that end together by dropping elements, each one is in the archive afterwards |
| `TabArchive.NoSessionIsLost` | fluxDown/background/tab-state.ts:643-683 | a message that ends no more than 12 sessions leaves each session an element played before, and that no reported element takes up, either played by that element or in the archive |
| `TabArchive.LeftUnderItsTitle` | fluxDown/background/tab-state.ts:232-248 | a session that an element leaves by a message is archived as the element was, stopped and out of sight, under the title remembered for it or else the element's own |
| `TabArchive.TitleRemembered` | fluxDown/background/tab-state.ts:669-681 | for an element reported while it plays under a title that title is remembered with its session; otherwise, while the session stays, what was remembered before |
| `TabArchive.PastExactly` | fluxDown/background/tab-state.ts:669-681 | the session of a reported element is in the archive exactly when another element leaves it later in the same message |
| `TabArchive.PlayingYetPast` | fluxDown/background/tab-state.ts:674-676 | a message after which a session is both played and archived |
| `TabState.ReceivedMatches` | fluxDown/background/tab-state.ts:643-683 | a message keeps every element with the sensor its frame is registered with |
| `TabState.FullSnapshotSettles` | fluxDown/background/tab-state.ts:661-668 | after a full snapshot the frame has exactly the listed elements |
| `TabResources.EvictLowest` | fluxDown/background/tab-state.ts:393-405 | drops the first entry that none is weaker than, and nothing else |
| `TabResources.EvictOldestSegments` | fluxDown/background/tab-state.ts:385-391 | only segments go, none newer than one that stays, until exactly the wanted number is left; the rest stays in its order, and nothing goes when there are few enough |
| `TabResources.Enter` | fluxDown/background/tab-state.ts:560-562 | before a newcomer at the end: for a segment the oldest segments beyond 149 are gone, then beyond 499 entries the weakest one; everything else stays in order |
| `TabState.Tab.Retire` | fluxDown/background/tab-state.ts:246-263 | archives the session an element leaves, under the title it played with |
| `TabState.Tab.AdoptSession` | fluxDown/background/tab-state.ts:254-264 | a new sensor of a frame registers itself and drops the old one's elements in order, each one's session going to the archive; a known one changes nothing |
| `TabState.Tab.Store` | fluxDown/background/tab-state.ts:645-656 | the element takes its place; a session it left is archived, its present one leaves the archive, and a title it plays with is remembered |
| `TabState.UpdatedElements` | fluxDown/background/tab-state.ts:643-659 | dropping and storing one by one, with the archive kept in bounds, gives the elements of the declarative `Received` |
| `TabState.Tab.UpdateElements` | fluxDown/background/tab-state.ts:643-659 | elements, archive and titles become exactly those specified for the message, the elements those of `Received`; a resync is asked for exactly when the sensor is unknown and the message not full |
| `TabState.Tab.Clear` | fluxDown/background/tab-state.ts:144-164 | a page change keeps, on the same site, the manifests not yet carried over and the manifest resources, and nothing else |
| `TabState.Tab.SyncPageUrl` | fluxDown/background/tab-state.ts:173-192 | a page change starts a new projection: on the same site the surviving manifests and manifest resources, aged by one page, otherwise nothing; registrations stay unless the tab reported it; any other address change leaves all that alone and keeps earlier reports current |
| `TabState.Tab.AddManifest` | fluxDown/background/tab-state.ts:587-606 | the manifest observed last comes last, the oldest beyond 8 go, and it no longer counts as carried over |
| `TabState.Tab.GoneAfterTwoPageChanges` | fluxDown/background/tab-state.ts:155-158 | a manifest not observed again is gone after two page changes |
| `TabState.Tab.IngestOne` | fluxDown/background/tab-state.ts:512-564 | a report is added, as the last entry behind what has made room, exactly when it is neither local nor ignored nor known and worth showing; a known one is merged in place; otherwise nothing changes |
| `TabState.Tab.Add` | fluxDown/background/tab-state.ts:559-562 | the resource enters behind what has made room for it; a resource that is no segment, with fewer than 500 there, is simply appended |
| `Replication.MineReceived` | fluxDown/background/tab-state.ts:643-683 | seen from its sensor a message does to the tab what it does to the sensor's own elements |
| `Replication.OthersDoNotTouch` | fluxDown/background/tab-state.ts:643-683 | messages of sensors in other frames leave a sensor's elements alone |
| `Replication.FullDrained` | fluxDown/background/tab-state.ts:661-668 | once a full snapshot is under way it does not matter what the tab held before |
| `Replication.FlushRepairs` | fluxDown/page/media-tracker.ts:501-521 | a flush message leaves missing exactly what was missing and is not in it |
| `Replication.Link.Adopt` | fluxDown/page/media-tracker.ts:298-330 | a new or returning element is tracked, queued and no longer reported as removed; a tracked one changes nothing |
| `Replication.Link.Release` | fluxDown/page/media-tracker.ts:362-373 | an element that left is no longer tracked and is reported as removed |
| `Replication.Link.Collect` | fluxDown/page/media-tracker.ts:505-514 | collects exactly the chosen items whose state is not the one last sent, or all on a full flush |
| `Replication.Link.Flush` | fluxDown/page/media-tracker.ts:501-521 | one message with everything chosen and changed and everything removed goes on the channel, or none when that is nothing, and exactly that is noted as sent; of the losses hidden from the sensor exactly those sent are repaired, all of them by a full flush |
| `Replication.Link.ResetForNavigation` | fluxDown/page/media-tracker.ts:536-543 | after an address change nothing counts as sent, every element is queued and the change is reported, so that no loss stays hidden |
| `Replication.Link.DeliverState` | fluxDown/background/tab-state.ts:643-683 | delivery does not change what will be there in the end; an unknown sensor is asked for everything |
| `Replication.Link.DeliverStatus` | fluxDown/background/tab-state.ts:275-285 | a status message registers the sensor and asks for nothing; if the sensor was unknown, what was sent and is not on its way again becomes a hidden loss |
| `Replication.Link.HearResync` | fluxDown/entrypoints/sensor.content.ts:125-131 | a resync answer makes the next flush a full one |
| `Replication.Link.Drop` | fluxDown/background/tab-state.ts:144-164 | elements and registrations dropped together leave the sensor to be noticed as unknown |
| `Replication.Link.PageChangesElsewhere` | fluxDown/background/tab-state.ts:144-192 | a page change of another frame empties the tab and keeps the registration: what was sent and is not on its way again becomes a hidden loss |
| `Replication.Link.QuietExactly` | fluxDown/page/media-tracker.ts:501-521 | when nothing is under way or waiting, the tab holds exactly the tracked elements as last sent if and only if no loss is hidden |
| `Replication.Link.LossIsNoticed` | fluxDown/background/tab-state.ts:643-659 | everything that will be missing is a hidden loss, or the tab does not know the sensor, or a resync or full snapshot is coming |
| `Replication.ComesToRest` | fluxDown/page/media-tracker.ts:501-521 | left alone every link comes to rest within two flushes: the tab then holds exactly the tracked elements as last sent if and only if no loss is hidden, or it knows nothing of the sensor and there was nothing to send |
| `Replication.LossIsRepaired` | fluxDown/background/tab-state.ts:643-659 | after everything was dropped with nothing under way, the next message, whatever it carries, leads over a resync and a full snapshot to a tab that holds every tracked element as it is now |
| `Replication.StatusHidesLoss` | fluxDown/background/tab-state.ts:283-301 | from any quiet state, a loss followed by a status message leaves all quiet and the tab without the elements |
| `Replication.PageChangeHidesLoss` | fluxDown/background/tab-state.ts:144-192 | from any quiet state a page change of another frame leaves all quiet and every tracked element missing |
| `MediaBinding.EvidenceOf` | fluxDown/background/media-binding.ts:51-64 | exact keys are those of exact sources and of the element's own source; temporal counts add up per key |
| `MediaBinding.OwnersTell` | fluxDown/background/media-binding.ts:73-79 | counting owners tells whether another element has the key as exact evidence |
| `MediaBinding.EvidencesOf` | fluxDown/background/media-binding.ts:70-83 | temporal evidence that is exact for another element is dropped, and nothing else: no key is temporal for one element and exact for another |
| `MediaBinding.CandidateKeys` | fluxDown/background/media-binding.ts:90-97 | a candidate's keys, each once |
| `MediaBinding.Pick` | fluxDown/background/media-binding.ts:149-165 | the first element maximal in exact hits, temporal count and rank, none when no element has evidence |
| `MediaBinding.FirstBestIsForemost` | fluxDown/background/media-binding.ts:149-165 | the element picked is the one ahead of all others with evidence: by the number of keys that are exact for it, then by temporal counts, then by playing in view, playing or being shown, then by position |
| `MediaBinding.RankOutranks` | fluxDown/background/media-binding.ts:22-27 | playing and mostly in view outranks playing, playing outranks being shown, and that the rest |
| `MediaBinding.BestTemporal` | fluxDown/background/media-binding.ts:178-183 | a temporal binding scores highest for its element exactly when it reaches the recorded maximum |
| `MediaBinding.Prune` | fluxDown/background/media-binding.ts:174-190 | exact bindings stay; a temporal one stays exactly when its element has no exact one and it scores highest there |
| `MediaBinding.PruningKeepsTheBest` | fluxDown/background/media-binding.ts:174-190 | no element keeps both kinds of binding, kept temporal ones of an element score alike, and no bound element loses all its bindings |
| `MediaBinding.BindCandidates` | fluxDown/background/media-binding.ts:140-192 | all of the above for the whole function; of several candidates with one id the binding is that of the last one with evidence |

## Left out

- Characters are Unicode scalar values, not UTF-16 code units; texts with unpaired surrogates are not modelled.
- URL parsing, `TextDecoder`, `JSON`, MIME tables and the execution of regular expressions: function-valued parameters or not modelled.
- Browser interfaces, storage, timers, DOM observation, logging: events with arbitrary results.
- The assembly of predicates in `compileMatch` from closures: `Engine.SpecHolds` states their conjunction directly.
- The other evaluators of `compileRules` (strip, filename, track, body, DOM, page and header rules), problem lists and the user-interface listing.
- `RegexParser`, `RegexWriting`: numbers are exact; lower-casing maps a code to one character; patterns that are not well formed are covered by the parser's specification but not by the round trip.
- `RegexCharacters`: case folding beyond ASCII, where the checker's sets do not tell characters apart.
- `RegexSafety`: length limit, the compile attempt and the text tests for back-references and look-around in `regexProblem`.
- `Params`, `Continuation`: charset scoring, encoded words and the decoding of a plain `filename` value (parameters of `Continuation.NameFromHeader`), MIME extensions and `resolveDownloadFilename`; headers are given as Latin-1 characters.
- `JsonRoots`: the XML parser and the search for a manifest inside a root.
- `ManifestGroups`: `selectQualityVideoTracks` and the building of candidates beyond grouping and merging.
- `MediaBinding`: `playingVariant` and the active element; visibility is a real number.
- `TabState`: HLS playlists, unseen evidence, the context target, hook reports, the short hash in archive keys, persistence and restore (restore can exceed the bounds until later evictions). Element keys carry their sensor's id, as the sensor makes them.
- TabState.Tab.Ingest: states the kept invariant and a bound on the count; what each report does is stated by `TabState.Tab.IngestOne`.
- `Replication`: `stop()`, which releases without reporting, and a second sensor in the same frame. The background's verdict on an address change is fixed when the change is sent; a page change known from the tab's address alone drops the registrations too and is the event `Drop`.
- `Intercept`: the clean-up after 30 seconds, the Firefox blocking path and the new browser download after a failed send, which has an id of its own.
- `RuleSync`: sync metadata, outcome reporting, the offline and unavailable exits, and the start-up skip; packs are a sequence and a body; sequences that are strings in malformed replies count as missing.
- `Dispatch`: a concurrency of 0, which the source never uses; after a rejected call the other workers go on but no result is given.
- `LinkCapture`, `NmhPool`: results of `cancel`, `erase` and `disconnect` calls, which the source only logs.
