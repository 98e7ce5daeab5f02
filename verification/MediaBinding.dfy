/** Binding media candidates to page elements by source evidence (fluxDown/background/media-binding.ts). */
module MediaBinding {
  import opened Options

  datatype Hit = Hit(url: string, count: nat)

  datatype SourceBuffer = SourceBuffer(exact: seq<string>, temporal: seq<Hit>)

  datatype Element = Element(
    key: string, playing: bool, visibleRatio: real, width: nat, height: nat, currentSrc: string, bindings: seq<SourceBuffer>)

  datatype Candidate = Candidate(id: string, resourceIds: seq<string>, urls: seq<string>)

  /** Playing and mostly visible, playing, visible and large enough, or none of these. */
  function Rank(e: Element): nat {
    if e.playing && e.visibleRatio >= 0.5 then 3
    else if e.playing then 2
    else if e.visibleRatio > 0.0 && e.width >= 120 && e.height >= 80 then 1
    else 0
  }

  // ----- Evidence -----

  datatype Evidence = Evidence(exact: set<string>, temporal: map<string, nat>)

  ghost predicate ExactFor(e: Element, key: string -> string, k: string) {
    (e.currentSrc != "" && key(e.currentSrc) == k) ||
    exists b, u :: 0 <= b < |e.bindings| && 0 <= u < |e.bindings[b].exact| && key(e.bindings[b].exact[u]) == k
  }

  /** How often key k was counted. */
  function Counted(hits: seq<Hit>, key: string -> string, k: string): nat {
    if hits == [] then 0
    else Counted(hits[..|hits| - 1], key, k) + (if key(hits[|hits| - 1].url) == k then hits[|hits| - 1].count else 0)
  }

  function CountedIn(bindings: seq<SourceBuffer>, key: string -> string, k: string): nat {
    if bindings == [] then 0
    else CountedIn(bindings[..|bindings| - 1], key, k) + Counted(bindings[|bindings| - 1].temporal, key, k)
  }

  function At(m: map<string, nat>, k: string): nat {
    if k in m then m[k] else 0
  }

  method AddCounts(temporal: map<string, nat>, hits: seq<Hit>, key: string -> string) returns (r: map<string, nat>)
    ensures forall k :: At(r, k) == At(temporal, k) + Counted(hits, key, k)
  {
    r := temporal;
    for i := 0 to |hits|
      invariant forall k :: At(r, k) == At(temporal, k) + Counted(hits[..i], key, k)
    {
      assert hits[..i + 1][..i] == hits[..i];
      var k := key(hits[i].url);
      r := r[k := At(r, k) + hits[i].count];
    }
    assert hits[..|hits|] == hits;
  }

  function Keyed(urls: seq<string>, key: string -> string): set<string> {
    set u | u in urls :: key(u)
  }

  /** The exact keys of the first n buffers. */
  ghost predicate ExactUpTo(e: Element, key: string -> string, n: nat, exact: set<string>)
    requires n <= |e.bindings|
  {
    forall k :: k in exact <==> exists b :: 0 <= b < n && k in Keyed(e.bindings[b].exact, key)
  }

  /** `evidenceOf`: the exact keys, a direct source among them, and the counts of the temporal ones. */
  method EvidenceOf(e: Element, key: string -> string) returns (ev: Evidence)
    ensures forall k :: k in ev.exact <==> ExactFor(e, key, k)
    ensures forall k :: At(ev.temporal, k) == CountedIn(e.bindings, key, k)
  {
    var exact: set<string> := {};
    var temporal: map<string, nat> := map[];
    for b := 0 to |e.bindings|
      invariant ExactUpTo(e, key, b, exact)
      invariant forall k :: At(temporal, k) == CountedIn(e.bindings[..b], key, k)
    {
      assert e.bindings[..b + 1][..b] == e.bindings[..b];
      exact := exact + Keyed(e.bindings[b].exact, key);
      temporal := AddCounts(temporal, e.bindings[b].temporal, key);
    }
    assert e.bindings[..|e.bindings|] == e.bindings;
    ghost var buffered := exact;
    if e.currentSrc != "" {
      exact := exact + {key(e.currentSrc)};
    }
    forall k ensures k in exact <==> ExactFor(e, key, k) {
      BufferedExact(e, key, k, buffered);
    }
    ev := Evidence(exact, temporal);
  }

  lemma BufferedExact(e: Element, key: string -> string, k: string, exact: set<string>)
    requires ExactUpTo(e, key, |e.bindings|, exact)
    ensures k in exact <==>
      exists b, u :: 0 <= b < |e.bindings| && 0 <= u < |e.bindings[b].exact| && key(e.bindings[b].exact[u]) == k
  {
    if k in exact {
      var b :| 0 <= b < |e.bindings| && k in Keyed(e.bindings[b].exact, key);
      var u :| u in e.bindings[b].exact && key(u) == k;
      var i :| 0 <= i < |e.bindings[b].exact| && e.bindings[b].exact[i] == u;
    }
    if b, u :| 0 <= b < |e.bindings| && 0 <= u < |e.bindings[b].exact| && key(e.bindings[b].exact[u]) == k {
      assert e.bindings[b].exact[u] in e.bindings[b].exact;
      assert k in Keyed(e.bindings[b].exact, key);
    }
  }

  /** How many elements have k as exact evidence. */
  function Owners(evs: seq<Evidence>, k: string): nat {
    if evs == [] then 0
    else Owners(evs[..|evs| - 1], k) + (if k in evs[|evs| - 1].exact then 1 else 0)
  }

  ghost predicate OwnedElsewhere(evs: seq<Evidence>, i: nat, k: string) {
    exists j :: 0 <= j < |evs| && j != i && k in evs[j].exact
  }

  /** Counting owners tells whether another element owns the key. */
  lemma {:induction false} OwnersTell(evs: seq<Evidence>, i: nat, k: string)
    ensures Owners(evs, k) >= if i < |evs| && k in evs[i].exact then 1 else 0
    ensures Owners(evs, k) > (if i < |evs| && k in evs[i].exact then 1 else 0) <==> OwnedElsewhere(evs, i, k)
  {
    if evs != [] {
      var n := |evs| - 1;
      OwnersTell(evs[..n], i, k);
      assert forall j :: 0 <= j < n ==> evs[..n][j] == evs[j];
      if OwnedElsewhere(evs[..n], i, k) {
        var j :| 0 <= j < n && j != i && k in evs[..n][j].exact;
        assert k in evs[j].exact;
      }
      if OwnedElsewhere(evs, i, k) {
        var j :| 0 <= j < |evs| && j != i && k in evs[j].exact;
        if j < n {
          assert k in evs[..n][j].exact;
        }
      }
      if k in evs[n].exact && i != n {
        assert OwnedElsewhere(evs, i, k);
      }
    }
  }

  method CountOwners(evs: seq<Evidence>) returns (owners: map<string, nat>)
    ensures forall k :: At(owners, k) == Owners(evs, k)
  {
    owners := map[];
    for i := 0 to |evs|
      invariant forall k :: At(owners, k) == Owners(evs[..i], k)
    {
      assert evs[..i + 1][..i] == evs[..i];
      var todo := evs[i].exact;
      while todo != {}
        invariant todo <= evs[i].exact
        invariant forall k :: At(owners, k) == Owners(evs[..i], k) + (if k in evs[i].exact - todo then 1 else 0)
        decreases todo
      {
        var k :| k in todo;
        owners := owners[k := At(owners, k) + 1];
        todo := todo - {k};
      }
    }
    assert evs[..|evs|] == evs;
  }

  /** The evidence of one element without what belongs to others. */
  function OwnEvidence(evs: seq<Evidence>, i: nat, owners: map<string, nat>): Evidence
    requires i < |evs|
  {
    var ev := evs[i];
    Evidence(ev.exact,
      map k | k in ev.temporal && At(owners, k) <= (if k in ev.exact then 1 else 0) :: ev.temporal[k])
  }

  /** No key is temporal for one element and exact for another. */
  ghost predicate NoStolenEvidence(evs: seq<Evidence>) {
    forall i, j, k :: 0 <= i < |evs| && 0 <= j < |evs| && i != j && k in evs[i].temporal ==> k !in evs[j].exact
  }

  /** Each element has its exact keys, and the counts of the keys that no other element owns. */
  ghost predicate EvidenceOk(es: seq<Element>, evs: seq<Evidence>, key: string -> string)
    requires |evs| == |es|
  {
    (forall i, k :: 0 <= i < |es| ==> (k in evs[i].exact <==> ExactFor(es[i], key, k))) &&
    (forall i, k :: 0 <= i < |es| ==>
      At(evs[i].temporal, k) == if OwnedElsewhere(evs, i, k) then 0 else CountedIn(es[i].bindings, key, k))
  }

  /** `evidencesOf`: drops temporal evidence that is exact for another element, and nothing else. */
  method EvidencesOf(es: seq<Element>, key: string -> string) returns (evs: seq<Evidence>)
    ensures |evs| == |es| && EvidenceOk(es, evs, key) && NoStolenEvidence(evs)
  {
    var raw: seq<Evidence> := [];
    for i := 0 to |es|
      invariant |raw| == i
      invariant forall j, k :: 0 <= j < i ==> (k in raw[j].exact <==> ExactFor(es[j], key, k))
      invariant forall j, k :: 0 <= j < i ==> At(raw[j].temporal, k) == CountedIn(es[j].bindings, key, k)
    {
      var ev := EvidenceOf(es[i], key);
      raw := raw + [ev];
    }
    var owners := CountOwners(raw);
    evs := seq(|raw|, i requires 0 <= i < |raw| => OwnEvidence(raw, i, owners));
    forall i, k | 0 <= i < |raw|
      ensures At(evs[i].temporal, k) == if OwnedElsewhere(evs, i, k) then 0 else At(raw[i].temporal, k)
      ensures k in evs[i].temporal ==> !OwnedElsewhere(evs, i, k)
    {
      OwnersTell(raw, i, k);
      SameOwners(raw, evs, i, k);
    }
    forall i, j, k | 0 <= i < |evs| && 0 <= j < |evs| && i != j && k in evs[i].temporal ensures k !in evs[j].exact {
      assert !OwnedElsewhere(evs, i, k);
    }
  }

  lemma SameOwners(a: seq<Evidence>, b: seq<Evidence>, i: nat, k: string)
    requires |a| == |b| && forall j :: 0 <= j < |a| ==> a[j].exact == b[j].exact
    ensures OwnedElsewhere(a, i, k) <==> OwnedElsewhere(b, i, k)
  {
    if OwnedElsewhere(a, i, k) {
      var j :| 0 <= j < |a| && j != i && k in a[j].exact;
      assert k in b[j].exact;
    }
  }

  // ----- The best element for a candidate -----

  datatype Score = Score(hits: nat, temporal: nat, rank: nat)

  /** Exact hits beat temporal counts, and both beat the rank of the element. */
  predicate Better(a: Score, b: Score) {
    a.hits > b.hits ||
    (a.hits == b.hits && (a.temporal > b.temporal || (a.temporal == b.temporal && a.rank > b.rank)))
  }

  predicate Evident(s: Score) {
    s.hits != 0 || s.temporal != 0
  }

  function HitsIn(keys: seq<string>, ev: Evidence): nat {
    if keys == [] then 0 else HitsIn(keys[..|keys| - 1], ev) + (if keys[|keys| - 1] in ev.exact then 1 else 0)
  }

  function TemporalIn(keys: seq<string>, ev: Evidence): nat {
    if keys == [] then 0 else TemporalIn(keys[..|keys| - 1], ev) + At(ev.temporal, keys[|keys| - 1])
  }

  function ScoreOf(keys: seq<string>, e: Element, ev: Evidence): Score {
    Score(HitsIn(keys, ev), TemporalIn(keys, ev), Rank(e))
  }

  ghost predicate NoRepeats(keys: seq<string>) {
    forall i, j :: 0 <= i < j < |keys| ==> keys[i] != keys[j]
  }

  /** The keys are those of the ids and of the URLs, each once. */
  ghost predicate KeysFor(keys: seq<string>, ids: seq<string>, urls: seq<string>, key: string -> string) {
    NoRepeats(keys) && forall k :: k in keys <==> k in ids || k in Keyed(urls, key)
  }

  /** Appends the key unless it is there. */
  function WithKey(keys: seq<string>, k: string): seq<string> {
    if k in keys then keys else keys + [k]
  }

  lemma OneMoreId(keys: seq<string>, ids: seq<string>, i: nat, key: string -> string)
    requires i < |ids| && KeysFor(keys, ids[..i], [], key)
    ensures KeysFor(WithKey(keys, ids[i]), ids[..i + 1], [], key)
  {
    assert ids[..i + 1] == ids[..i] + [ids[i]];
  }

  lemma OneMoreUrl(keys: seq<string>, ids: seq<string>, urls: seq<string>, i: nat, key: string -> string)
    requires i < |urls| && KeysFor(keys, ids, urls[..i], key)
    ensures KeysFor(WithKey(keys, key(urls[i])), ids, urls[..i + 1], key)
  {
    assert urls[..i + 1] == urls[..i] + [urls[i]];
    assert Keyed(urls[..i + 1], key) == Keyed(urls[..i], key) + {key(urls[i])};
  }

  /** A candidate's keys, each counted once. */
  method CandidateKeys(c: Candidate, key: string -> string) returns (keys: seq<string>)
    ensures KeysOf(keys, c, key)
  {
    keys := [];
    assert Keyed([], key) == {};
    for i := 0 to |c.resourceIds|
      invariant KeysFor(keys, c.resourceIds[..i], [], key)
    {
      OneMoreId(keys, c.resourceIds, i, key);
      if c.resourceIds[i] !in keys { keys := keys + [c.resourceIds[i]]; }
    }
    assert c.resourceIds[..|c.resourceIds|] == c.resourceIds && c.urls[..0] == [];
    for i := 0 to |c.urls|
      invariant KeysFor(keys, c.resourceIds, c.urls[..i], key)
    {
      OneMoreUrl(keys, c.resourceIds, c.urls, i, key);
      if key(c.urls[i]) !in keys { keys := keys + [key(c.urls[i])]; }
    }
    assert c.urls[..|c.urls|] == c.urls;
  }

  method Tally(keys: seq<string>, e: Element, ev: Evidence) returns (s: Score)
    ensures s == ScoreOf(keys, e, ev)
  {
    var hits, temporal := 0, 0;
    for i := 0 to |keys|
      invariant hits == HitsIn(keys[..i], ev) && temporal == TemporalIn(keys[..i], ev)
    {
      assert keys[..i + 1][..i] == keys[..i];
      if keys[i] in ev.exact { hits := hits + 1; }
      temporal := temporal + At(ev.temporal, keys[i]);
    }
    assert keys[..|keys|] == keys;
    s := Score(hits, temporal, Rank(e));
  }

  /** i is the first element with evidence that none beats. */
  ghost predicate FirstBest(keys: seq<string>, es: seq<Element>, evs: seq<Evidence>, n: nat, i: nat)
    requires n <= |es| == |evs|
  {
    i < n && Evident(ScoreOf(keys, es[i], evs[i])) &&
    (forall j :: 0 <= j < n && Evident(ScoreOf(keys, es[j], evs[j])) ==>
      !Better(ScoreOf(keys, es[j], evs[j]), ScoreOf(keys, es[i], evs[i])) &&
      (j < i ==> Better(ScoreOf(keys, es[i], evs[i]), ScoreOf(keys, es[j], evs[j]))))
  }

  ghost predicate NoneEvident(keys: seq<string>, es: seq<Element>, evs: seq<Evidence>, n: nat)
    requires n <= |es| == |evs|
  {
    forall j :: 0 <= j < n ==> !Evident(ScoreOf(keys, es[j], evs[j]))
  }

  datatype Choice = Choice(element: nat, score: Score)

  /** The inner loop of `bindCandidates`. */
  method Pick(keys: seq<string>, es: seq<Element>, evs: seq<Evidence>) returns (best: Option<Choice>)
    requires |es| == |evs|
    ensures best.None? ==> NoneEvident(keys, es, evs, |es|)
    ensures best.Some? ==>
      FirstBest(keys, es, evs, |es|, best.value.element) &&
      best.value.score == ScoreOf(keys, es[best.value.element], evs[best.value.element])
  {
    best := None;
    for j := 0 to |es|
      invariant best.None? ==> NoneEvident(keys, es, evs, j)
      invariant best.Some? ==>
        FirstBest(keys, es, evs, j, best.value.element) &&
        best.value.score == ScoreOf(keys, es[best.value.element], evs[best.value.element])
    {
      var s := Tally(keys, es[j], evs[j]);
      if Evident(s) && (best.None? || Better(s, best.value.score)) {
        best := Some(Choice(j, s));
      }
    }
  }

  // ----- The choice in the elements' own terms -----

  /** Playing with at least half of it in view. */
  predicate Prominent(e: Element) {
    e.playing && e.visibleRatio >= 0.5
  }

  /** In view and not tiny. */
  predicate Shown(e: Element) {
    e.visibleRatio > 0.0 && e.width >= 120 && e.height >= 80
  }

  predicate Outranks(e: Element, f: Element) {
    (e.playing && !f.playing) || (Prominent(e) && !Prominent(f)) || (Shown(e) && !f.playing && !Shown(f))
  }

  /** More keys in exact evidence, then more temporal counts, then the better place on the page, then first. */
  ghost predicate Ahead(keys: seq<string>, es: seq<Element>, evs: seq<Evidence>, i: nat, j: nat)
    requires i < |es| == |evs| && j < |es|
  {
    var hits, others := ExactKeys(keys, evs[i]), ExactKeys(keys, evs[j]);
    var counts, more := TemporalIn(keys, evs[i]), TemporalIn(keys, evs[j]);
    |hits| > |others| ||
    (|hits| == |others| &&
     (counts > more ||
      (counts == more && (Outranks(es[i], es[j]) || (!Outranks(es[j], es[i]) && i < j)))))
  }

  ghost function ExactKeys(keys: seq<string>, ev: Evidence): set<string> {
    set k | k in keys && k in ev.exact
  }

  lemma {:induction false} HitsAreKeys(keys: seq<string>, ev: Evidence)
    requires NoRepeats(keys)
    ensures HitsIn(keys, ev) == |ExactKeys(keys, ev)|
    decreases |keys|
  {
    if keys == [] {
      assert ExactKeys(keys, ev) == {};
    } else {
      var front, k := keys[..|keys| - 1], keys[|keys| - 1];
      assert keys == front + [k] && forall i :: 0 <= i < |front| ==> front[i] == keys[i];
      HitsAreKeys(front, ev);
      assert ExactKeys(keys, ev) == ExactKeys(front, ev) + (if k in ev.exact then {k} else {});
    }
  }

  lemma RankOutranks(e: Element, f: Element)
    ensures Rank(e) > Rank(f) <==> Outranks(e, f)
  {
  }

  ghost predicate HasEvidence(keys: seq<string>, ev: Evidence) {
    ExactKeys(keys, ev) != {} || TemporalIn(keys, ev) != 0
  }

  /** The element chosen has evidence and is ahead of every other that has. */
  ghost predicate Foremost(keys: seq<string>, es: seq<Element>, evs: seq<Evidence>, i: nat)
    requires |es| == |evs|
  {
    i < |es| && HasEvidence(keys, evs[i]) &&
    forall j :: 0 <= j < |es| && j != i && HasEvidence(keys, evs[j]) ==> Ahead(keys, es, evs, i, j)
  }

  lemma AheadOf(keys: seq<string>, es: seq<Element>, evs: seq<Evidence>, i: nat, j: nat)
    requires NoRepeats(keys) && i < |es| == |evs| && j < |es| && i != j
    ensures Ahead(keys, es, evs, i, j) <==>
      Better(ScoreOf(keys, es[i], evs[i]), ScoreOf(keys, es[j], evs[j])) ||
      (!Better(ScoreOf(keys, es[j], evs[j]), ScoreOf(keys, es[i], evs[i])) && i < j)
  {
    HitsAreKeys(keys, evs[i]);
    HitsAreKeys(keys, evs[j]);
    RankOutranks(es[i], es[j]);
    RankOutranks(es[j], es[i]);
  }

  lemma EvidentMeans(keys: seq<string>, e: Element, ev: Evidence)
    requires NoRepeats(keys)
    ensures Evident(ScoreOf(keys, e, ev)) <==> HasEvidence(keys, ev)
  {
    HitsAreKeys(keys, ev);
  }

  ghost predicate NoEvidence(keys: seq<string>, evs: seq<Evidence>) {
    forall j :: 0 <= j < |evs| ==> !HasEvidence(keys, evs[j])
  }

  /** The first best element is the foremost one in these terms. */
  lemma FirstBestIsForemost(keys: seq<string>, es: seq<Element>, evs: seq<Evidence>, i: nat)
    requires NoRepeats(keys) && |es| == |evs|
    ensures FirstBest(keys, es, evs, |es|, i) <==> Foremost(keys, es, evs, i)
  {
    if i < |es| {
      forall j | 0 <= j < |es|
        ensures Evident(ScoreOf(keys, es[j], evs[j])) <==> HasEvidence(keys, evs[j])
        ensures j != i ==> (Ahead(keys, es, evs, i, j) <==>
          Better(ScoreOf(keys, es[i], evs[i]), ScoreOf(keys, es[j], evs[j])) ||
          (!Better(ScoreOf(keys, es[j], evs[j]), ScoreOf(keys, es[i], evs[i])) && i < j))
      {
        EvidentMeans(keys, es[j], evs[j]);
        if j != i { AheadOf(keys, es, evs, i, j); }
      }
    }
  }

  // ----- Pruning -----

  datatype Confidence = Exact | Temporal

  datatype Binding = Binding(elementKey: string, confidence: Confidence, score: nat)

  type Bindings = map<string, Binding>

  ghost predicate HasExact(all: Bindings, elementKey: string) {
    exists id :: id in all && all[id].confidence.Exact? && all[id].elementKey == elementKey
  }

  /** No temporal binding of the same element scores higher. */
  ghost predicate TopScore(all: Bindings, id: string)
    requires id in all
  {
    forall other :: other in all && all[other].confidence.Temporal? && all[other].elementKey == all[id].elementKey ==>
      all[other].score <= all[id].score
  }

  /** Exact bindings stay; a temporal one stays if its element has no exact one and it scores highest there. */
  ghost predicate Stays(all: Bindings, id: string)
    requires id in all
  {
    all[id].confidence.Exact? || (!HasExact(all, all[id].elementKey) && TopScore(all, id))
  }

  method ExactElements(all: Bindings) returns (elements: set<string>)
    ensures forall e :: e in elements <==> HasExact(all, e)
  {
    elements := {};
    var todo := all.Keys;
    while todo != {}
      invariant todo <= all.Keys
      invariant forall id :: id in all && id !in todo && all[id].confidence.Exact? ==> all[id].elementKey in elements
      invariant forall e :: e in elements ==> HasExact(all, e)
      decreases todo
    {
      var id :| id in todo;
      if all[id].confidence.Exact? { elements := elements + {all[id].elementKey}; }
      todo := todo - {id};
    }
  }

  /** The highest temporal score per element. */
  method BestTemporal(all: Bindings) returns (best: map<string, nat>)
    ensures forall id :: id in all && all[id].confidence.Temporal? ==>
      (TopScore(all, id) <==> all[id].score >= At(best, all[id].elementKey))
  {
    best := map[];
    var todo := all.Keys;
    while todo != {}
      invariant todo <= all.Keys
      invariant forall id :: id in all && id !in todo && all[id].confidence.Temporal? ==>
        all[id].score <= At(best, all[id].elementKey)
      invariant forall e :: At(best, e) > 0 ==>
        exists id :: id in all && all[id].confidence.Temporal? && all[id].elementKey == e && all[id].score == best[e]
      decreases todo
    {
      var id :| id in todo;
      if all[id].confidence.Temporal? && all[id].score > At(best, all[id].elementKey) {
        best := best[all[id].elementKey := all[id].score];
      }
      todo := todo - {id};
    }
    forall id | id in all && all[id].confidence.Temporal?
      ensures TopScore(all, id) <==> all[id].score >= At(best, all[id].elementKey)
    {
      if TopScore(all, id) && At(best, all[id].elementKey) > 0 {
        var other :| other in all && all[other].confidence.Temporal? && all[other].elementKey == all[id].elementKey &&
          all[other].score == best[all[id].elementKey];
      }
    }
  }

  method Prune(all: Bindings) returns (kept: Bindings)
    ensures kept.Keys <= all.Keys && forall id :: id in kept ==> kept[id] == all[id]
    ensures forall id :: id in all ==> (id in kept <==> Stays(all, id))
  {
    var exact := ExactElements(all);
    var best := BestTemporal(all);
    kept := all;
    var todo := all.Keys;
    while todo != {}
      invariant todo <= all.Keys && kept.Keys <= all.Keys && forall id :: id in kept ==> kept[id] == all[id]
      invariant forall id :: id in all ==> (id in kept <==> id in todo || Stays(all, id))
      decreases todo
    {
      var id :| id in todo;
      if all[id].confidence.Temporal? && (all[id].elementKey in exact || all[id].score < At(best, all[id].elementKey)) {
        kept := kept - {id};
      }
      todo := todo - {id};
    }
  }

  /** What pruning guarantees: no element is left with both kinds of binding, and none loses all it had. */
  ghost predicate Pruned(all: Bindings, kept: Bindings) {
    (forall a, b :: a in kept && b in kept && kept[a].elementKey == kept[b].elementKey ==>
      kept[a].confidence == kept[b].confidence && (kept[a].confidence.Temporal? ==> kept[a].score == kept[b].score)) &&
    (forall id :: id in all ==> exists other :: other in kept && kept[other].elementKey == all[id].elementKey)
  }

  lemma PruningKeepsTheBest(all: Bindings, kept: Bindings)
    requires kept.Keys <= all.Keys && forall id :: id in kept ==> kept[id] == all[id]
    requires forall id :: id in all ==> (id in kept <==> Stays(all, id))
    ensures Pruned(all, kept)
  {
    forall a, b | a in kept && b in kept && kept[a].elementKey == kept[b].elementKey
      ensures kept[a].confidence == kept[b].confidence && (kept[a].confidence.Temporal? ==> kept[a].score == kept[b].score)
    {
      assert Stays(all, a) && Stays(all, b);
      assert kept[a].confidence.Exact? ==> HasExact(all, all[b].elementKey);
      assert kept[b].confidence.Exact? ==> HasExact(all, all[a].elementKey);
    }
    forall id | id in all ensures exists other :: other in kept && kept[other].elementKey == all[id].elementKey {
      if HasExact(all, all[id].elementKey) {
        var other :| other in all && all[other].confidence.Exact? && all[other].elementKey == all[id].elementKey;
        assert Stays(all, other);
      } else {
        var top := Highest(all, all.Keys, id);
        assert Stays(all, top);
      }
    }
  }

  /** Among the bindings looked at, one of the same element that scores highest. */
  lemma {:induction false} Highest(all: Bindings, ids: set<string>, id: string) returns (top: string)
    requires ids <= all.Keys && id in all && !HasExact(all, all[id].elementKey)
    ensures top in all && all[top].elementKey == all[id].elementKey
    ensures forall other :: other in ids && all[other].elementKey == all[id].elementKey ==> all[other].score <= all[top].score
    decreases ids
  {
    if ids == {} {
      top := id;
    } else {
      var x :| x in ids;
      top := Highest(all, ids - {x}, id);
      if all[x].elementKey == all[id].elementKey && all[x].score > all[top].score {
        top := x;
      }
    }
  }

  // ----- All together -----

  /** A candidate is bound, before pruning, to the foremost element for its keys. */
  ghost predicate BoundRightly(c: Candidate, b: Binding, es: seq<Element>, evs: seq<Evidence>, key: string -> string)
    requires |es| == |evs|
  {
    exists keys: seq<string>, i: nat ::
      KeysOf(keys, c, key) && Foremost(keys, es, evs, i) && b.elementKey == es[i].key &&
      (b.confidence.Exact? <==> ExactKeys(keys, evs[i]) != {}) && b.score == TemporalIn(keys, evs[i])
  }

  ghost predicate KeysOf(keys: seq<string>, c: Candidate, key: string -> string) {
    KeysFor(keys, c.resourceIds, c.urls, key)
  }

  /** Candidate c is the one behind a binding. */
  ghost predicate Behind(cands: seq<Candidate>, c: nat, id: string, b: Binding, es: seq<Element>, evs: seq<Evidence>, key: string -> string)
    requires |es| == |evs|
  {
    c < |cands| && cands[c].id == id && BoundRightly(cands[c], b, es, evs, key)
  }

  ghost predicate Unbindable(c: Candidate, es: seq<Element>, evs: seq<Evidence>, key: string -> string)
    requires |es| == |evs|
  {
    exists keys :: KeysOf(keys, c, key) && NoEvidence(keys, evs)
  }

  /** Candidate c is behind the binding, and no later candidate of that id has evidence. */
  ghost predicate LastBehind(cands: seq<Candidate>, n: nat, c: nat, id: string, b: Binding, es: seq<Element>,
                             evs: seq<Evidence>, key: string -> string)
    requires |es| == |evs| && n <= |cands|
  {
    c < n && Behind(cands, c, id, b, es, evs, key) &&
    forall later :: c < later < n && cands[later].id == id ==> Unbindable(cands[later], es, evs, key)
  }

  /** Some candidate among the first n is the last of its id that has evidence, and the binding is its. */
  ghost predicate Accounted(b: Binding, cands: seq<Candidate>, n: nat, id: string, es: seq<Element>,
                            evs: seq<Evidence>, key: string -> string)
    requires |es| == |evs| && n <= |cands|
  {
    exists c: nat :: LastBehind(cands, n, c, id, b, es, evs, key)
  }

  /** Each binding is that of the last candidate of its id with evidence; the unbound have none anywhere. */
  ghost predicate AllRightly(all: Bindings, cands: seq<Candidate>, n: nat, es: seq<Element>, evs: seq<Evidence>, key: string -> string)
    requires |es| == |evs| && n <= |cands|
  {
    (forall id :: id in all ==> Accounted(all[id], cands, n, id, es, evs, key)) &&
    (forall c :: 0 <= c < n && cands[c].id !in all ==> Unbindable(cands[c], es, evs, key))
  }

  lemma NewlyBehind(cands: seq<Candidate>, n: nat, b: Binding, es: seq<Element>, evs: seq<Evidence>, key: string -> string)
    requires |es| == |evs| && n < |cands| && BoundRightly(cands[n], b, es, evs, key)
    ensures Accounted(b, cands, n + 1, cands[n].id, es, evs, key)
  {
    assert LastBehind(cands, n + 1, n, cands[n].id, b, es, evs, key);
  }

  lemma StillBehind(cands: seq<Candidate>, n: nat, id: string, b: Binding, es: seq<Element>, evs: seq<Evidence>, key: string -> string)
    requires |es| == |evs| && n < |cands| && Accounted(b, cands, n, id, es, evs, key)
    requires cands[n].id == id ==> Unbindable(cands[n], es, evs, key)
    ensures Accounted(b, cands, n + 1, id, es, evs, key)
  {
    var c: nat :| LastBehind(cands, n, c, id, b, es, evs, key);
    assert LastBehind(cands, n + 1, c, id, b, es, evs, key);
  }

  lemma StillRightly(all: Bindings, cands: seq<Candidate>, n: nat, es: seq<Element>, evs: seq<Evidence>,
                     key: string -> string, b: Option<Binding>)
    requires |es| == |evs| && n < |cands| && AllRightly(all, cands, n, es, evs, key)
    requires if b.Some? then BoundRightly(cands[n], b.value, es, evs, key) else Unbindable(cands[n], es, evs, key)
    ensures AllRightly(if b.Some? then all[cands[n].id := b.value] else all, cands, n + 1, es, evs, key)
  {
    var now := if b.Some? then all[cands[n].id := b.value] else all;
    forall id | id in now ensures Accounted(now[id], cands, n + 1, id, es, evs, key) {
      if b.Some? && id == cands[n].id {
        NewlyBehind(cands, n, b.value, es, evs, key);
      } else {
        StillBehind(cands, n, id, all[id], es, evs, key);
      }
    }
  }

  /** One candidate's turn: its binding before pruning. */
  method BindOne(c: Candidate, es: seq<Element>, evs: seq<Evidence>, key: string -> string) returns (b: Option<Binding>)
    requires |es| == |evs|
    ensures if b.Some? then BoundRightly(c, b.value, es, evs, key) else Unbindable(c, es, evs, key)
  {
    var keys := CandidateKeys(c, key);
    var best := Pick(keys, es, evs);
    if best.None? {
      forall j | 0 <= j < |es| ensures !HasEvidence(keys, evs[j]) { EvidentMeans(keys, es[j], evs[j]); }
      assert NoEvidence(keys, evs);
      return None;
    }
    var i := best.value.element;
    FirstBestIsForemost(keys, es, evs, i);
    HitsAreKeys(keys, evs[i]);
    b := Some(Binding(es[i].key, if best.value.score.hits > 0 then Exact else Temporal, best.value.score.temporal));
  }

  method BindAll(cands: seq<Candidate>, es: seq<Element>, evs: seq<Evidence>, key: string -> string) returns (all: Bindings)
    requires |es| == |evs|
    ensures AllRightly(all, cands, |cands|, es, evs, key)
  {
    all := map[];
    for n := 0 to |cands|
      invariant AllRightly(all, cands, n, es, evs, key)
    {
      var b := BindOne(cands[n], es, evs, key);
      StillRightly(all, cands, n, es, evs, key, b);
      if b.Some? {
        all := all[cands[n].id := b.value];
      }
    }
  }

  /**
   * `all` is what the evidence says, candidate by candidate; of that the exact bindings stay, and for
   * elements without any, the temporal ones with the top score.
   */
  ghost predicate BoundByEvidence(kept: Bindings, all: Bindings, evs: seq<Evidence>, cands: seq<Candidate>,
                                  es: seq<Element>, key: string -> string) {
    |evs| == |es| && EvidenceOk(es, evs, key) && NoStolenEvidence(evs) && AllRightly(all, cands, |cands|, es, evs, key) &&
    kept.Keys <= all.Keys && (forall id :: id in kept ==> kept[id] == all[id]) &&
    (forall id :: id in all ==> (id in kept <==> Stays(all, id))) && Pruned(all, kept)
  }

  /** `bindCandidates`. */
  method BindCandidates(cands: seq<Candidate>, es: seq<Element>, key: string -> string) returns (kept: Bindings)
    ensures exists all, evs :: BoundByEvidence(kept, all, evs, cands, es, key)
  {
    var evs := EvidencesOf(es, key);
    var all := BindAll(cands, es, evs, key);
    kept := Prune(all);
    PruningKeepsTheBest(all, kept);
    assert BoundByEvidence(kept, all, evs, cands, es, key);
  }
}
