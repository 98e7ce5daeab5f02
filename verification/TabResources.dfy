/** The resources sniffed on a tab and how they make room for new ones (fluxDown/background/tab-state.ts). */
module TabResources {
  import opened OrderedMaps
  import opened Sorting

  const MAX_RESOURCES: nat := 500
  const MAX_SEGMENTS: nat := 150

  datatype Resource = Resource(id: string, url: string, confidence: nat, detectedAt: int, carried: bool, body: string)

  type Resources = seq<Slot<string, Resource>>

  ghost predicate OwnIds(m: map<string, Resource>) {
    forall k :: k in m ==> m[k].id == k
  }

  ghost predicate ResourcesOk(s: Resources) {
    Distinct(s) && |s| <= MAX_RESOURCES && OwnIds(Lookup(s))
  }

  ghost predicate Part(r: map<string, Resource>, s: map<string, Resource>) {
    forall k :: k in r ==> k in s && r[k] == s[k]
  }

  /** The weaker of two resources: lower confidence, then older. */
  predicate Weaker(a: Resource, b: Resource) {
    a.confidence < b.confidence || (a.confidence == b.confidence && a.detectedAt < b.detectedAt)
  }

  /** No entry is weaker than this one, and those before it are not as weak. */
  ghost predicate Weakest(s: Resources, v: nat) {
    v < |s| &&
    (forall i :: 0 <= i < |s| ==> !Weaker(s[i].value, s[v].value)) &&
    (forall i :: 0 <= i < v ==> Weaker(s[v].value, s[i].value))
  }

  ghost predicate WeakestGone(before: Resources, after: Resources) {
    exists v: nat :: Weakest(before, v) && after == Remove(before, before[v].key)
  }

  /** `evictLowest`: drops the first entry that no other is weaker than. */
  method EvictLowest(s: Resources) returns (r: Resources)
    requires Distinct(s)
    ensures if s == [] then r == [] else WeakestGone(s, r)
    ensures Distinct(r) && Part(Lookup(r), Lookup(s)) && |r| == if s == [] then 0 else |s| - 1
  {
    if s == [] { return s; }
    var v := 0;
    for i := 1 to |s|
      invariant 0 <= v < i
      invariant forall j :: 0 <= j < i ==> !Weaker(s[j].value, s[v].value)
      invariant forall j :: 0 <= j < v ==> Weaker(s[v].value, s[j].value)
    {
      if Weaker(s[i].value, s[v].value) {
        v := i;
      }
    }
    assert Weakest(s, v);
    RemoveLookup(s, s[v].key);
    At(s, v);
    r := Remove(s, s[v].key);
  }

  // ----- Oldest segments -----

  predicate Older(a: Slot<string, Resource>, b: Slot<string, Resource>) {
    a.value.detectedAt <= b.value.detectedAt
  }

  /** The entries that `segment` holds for, in order. */
  function SegmentsOf(s: Resources, segment: Resource -> bool): Resources {
    if s == [] then [] else (if segment(s[0].value) then [s[0]] else []) + SegmentsOf(s[1..], segment)
  }

  lemma {:induction false} SegmentCounts(s: Resources, segment: Resource -> bool, x: Slot<string, Resource>)
    ensures multiset(SegmentsOf(s, segment))[x] == if segment(x.value) then multiset(s)[x] else 0
  {
    if s != [] {
      SegmentCounts(s[1..], segment, x);
      assert s == [s[0]] + s[1..];
    }
  }

  lemma {:induction false} RemoveCounts(s: Resources, e: Slot<string, Resource>)
    requires Distinct(s) && e in s
    ensures multiset(Remove(s, e.key)) == multiset(s) - multiset{e}
  {
    assert s == [s[0]] + s[1..];
    if s[0].key == e.key {
      if e in s[1..] {
        var i :| 0 <= i < |s[1..]| && s[1..][i] == e;
        At(s[1..], i);
      }
    } else {
      RemoveCounts(s[1..], e);
    }
  }

  /** Only segments are evicted, and none that is newer than a segment left; the rest keeps its order. */
  ghost predicate OldestEvicted(before: Resources, after: Resources, segment: Resource -> bool) {
    (exists gone: set<string> :: after == Except(before, gone)) &&
    (forall e :: e in before && e !in after ==> segment(e.value)) &&
    (forall e, f :: e in before && e !in after && f in after && segment(f.value) ==> Older(e, f))
  }

  lemma SameCountsSameMultiset(a: Resources, b: Resources)
    requires forall x :: multiset(a)[x] == multiset(b)[x]
    ensures multiset(a) == multiset(b) && |a| == |b|
  {
    assert |multiset(a)| == |a| && |multiset(b)| == |b|;
  }

  /** Once the oldest are gone, the segments left are the rest of the sorted list. */
  lemma SurvivingSegments(s: Resources, r: Resources, sorted: Resources, m: nat, segment: Resource -> bool)
    requires m <= |sorted| && multiset(sorted) == multiset(SegmentsOf(s, segment))
    requires multiset(r) == multiset(s) - multiset(sorted[..m])
    ensures multiset(SegmentsOf(r, segment)) == multiset(sorted[m..])
    ensures |SegmentsOf(r, segment)| == |sorted| - m
  {
    var left, rest, gone := SegmentsOf(r, segment), sorted[m..], sorted[..m];
    assert sorted == gone + rest;
    forall x ensures multiset(left)[x] == multiset(rest)[x] {
      SegmentCounts(s, segment, x);
      SegmentCounts(r, segment, x);
      assert multiset(sorted)[x] == multiset(gone)[x] + multiset(rest)[x];
    }
    SameCountsSameMultiset(left, rest);
  }

  lemma EvictedIsVictim(s: Resources, r: Resources, victims: Resources, e: Slot<string, Resource>)
    requires multiset(r) == multiset(s) - multiset(victims) && e in s && e !in r
    ensures e in victims
  {
    assert e in multiset(s) && e !in multiset(r);
  }

  lemma VictimIsOlder(sorted: Resources, m: nat, e: Slot<string, Resource>, f: Slot<string, Resource>)
    requires Sorted(sorted, Older) && m <= |sorted| && e in sorted[..m] && f in sorted[m..]
    ensures Older(e, f)
  {
    var i :| 0 <= i < m && sorted[i] == e;
    var j :| m <= j < |sorted| && sorted[j] == f;
  }

  lemma VictimsAreOldest(s: Resources, r: Resources, sorted: Resources, m: nat, segment: Resource -> bool)
    requires Sorted(sorted, Older) && m <= |sorted| && multiset(sorted) == multiset(SegmentsOf(s, segment))
    requires multiset(r) == multiset(s) - multiset(sorted[..m]) && r == Except(s, KeysIn(sorted[..m]))
    ensures OldestEvicted(s, r, segment)
  {
    SurvivingSegments(s, r, sorted, m, segment);
    forall e | e in s && e !in r ensures segment(e.value) {
      EvictedIsVictim(s, r, sorted[..m], e);
      assert e in multiset(sorted);
      SegmentCounts(s, segment, e);
    }
    forall e, f | e in s && e !in r && f in r && segment(f.value) ensures Older(e, f) {
      EvictedIsVictim(s, r, sorted[..m], e);
      SegmentCounts(r, segment, f);
      assert f in multiset(r) && f in multiset(sorted[m..]);
      VictimIsOlder(sorted, m, e, f);
    }
  }

  /** Taking the victims off one by one. */
  lemma VictimPresent(all: multiset<Slot<string, Resource>>, sorted: Resources, i: nat)
    requires i < |sorted| && multiset(sorted) <= all
    ensures sorted[i] in all - multiset(sorted[..i])
    ensures all - multiset(sorted[..i]) - multiset{sorted[i]} == all - multiset(sorted[..i + 1])
  {
    var e := sorted[i];
    assert sorted[..i + 1] == sorted[..i] + [e];
    assert sorted == sorted[..i + 1] + sorted[i + 1..];
    assert multiset(sorted)[e] >= multiset(sorted[..i])[e] + 1;
  }

  /** The keys of these entries. */
  function KeysIn(s: Resources): set<string> {
    set e | e in s :: e.key
  }

  lemma RemoveVictim(s: Resources, sorted: Resources, i: nat, r: Resources)
    requires i < |sorted| && multiset(sorted) <= multiset(s) && Distinct(r)
    requires multiset(r) == multiset(s) - multiset(sorted[..i])
    ensures multiset(Remove(r, sorted[i].key)) == multiset(s) - multiset(sorted[..i + 1])
  {
    VictimPresent(multiset(s), sorted, i);
    assert sorted[i] in multiset(r);
    RemoveCounts(r, sorted[i]);
  }

  lemma RemoveKey(s: Resources, sorted: Resources, i: nat)
    requires i < |sorted| && Distinct(s)
    ensures Remove(Except(s, KeysIn(sorted[..i])), sorted[i].key) == Except(s, KeysIn(sorted[..i + 1]))
  {
    RemoveExcept(s, KeysIn(sorted[..i]), sorted[i].key);
    assert sorted[..i + 1] == sorted[..i] + [sorted[i]];
    assert KeysIn(sorted[..i + 1]) == KeysIn(sorted[..i]) + {sorted[i].key};
  }

  /** The first n of the victims are gone, as entries and by key. */
  ghost predicate VictimsGone(s: Resources, sorted: Resources, n: nat, r: Resources)
    requires n <= |sorted|
  {
    r == Except(s, KeysIn(sorted[..n])) && multiset(r) == multiset(s) - multiset(sorted[..n])
  }

  lemma NextVictim(s: Resources, sorted: Resources, i: nat, r: Resources)
    requires i < |sorted| && multiset(sorted) <= multiset(s) && Distinct(s) && VictimsGone(s, sorted, i, r)
    ensures VictimsGone(s, sorted, i + 1, Remove(r, sorted[i].key))
  {
    ExceptLookup(s, KeysIn(sorted[..i]));
    RemoveVictim(s, sorted, i, r);
    RemoveKey(s, sorted, i);
  }

  method RemoveVictims(s: Resources, sorted: Resources, m: nat) returns (r: Resources)
    requires Distinct(s) && m <= |sorted| && multiset(sorted) <= multiset(s)
    ensures VictimsGone(s, sorted, m, r)
  {
    r := s;
    assert multiset(sorted[..0]) == multiset{} && KeysIn(sorted[..0]) == {};
    ExceptNothing(s);
    for i := 0 to m
      invariant VictimsGone(s, sorted, i, r)
    {
      NextVictim(s, sorted, i, r);
      r := Remove(r, sorted[i].key);
    }
  }

  /** `evictOldestSegments`: keeps everything else and the newest `keep` segments. */
  method EvictOldestSegments(s: Resources, segment: Resource -> bool, keep: nat) returns (r: Resources)
    requires Distinct(s)
    ensures Distinct(r) && |r| <= |s| && OldestEvicted(s, r, segment)
    ensures |SegmentsOf(s, segment)| <= keep ==> r == s
    ensures |SegmentsOf(r, segment)| == if |SegmentsOf(s, segment)| <= keep then |SegmentsOf(s, segment)| else keep
    ensures Part(Lookup(r), Lookup(s))
  {
    var segments := SegmentsOf(s, segment);
    if |segments| <= keep {
      ExceptNothing(s);
      return s;
    }
    var sorted, m := Sort(segments, Older), |segments| - keep;
    SortedSegments(s, segment);
    r := RemoveVictims(s, sorted, m);
    ExceptLookup(s, KeysIn(sorted[..m]));
    VictimsAreOldest(s, r, sorted, m, segment);
    SurvivingSegments(s, r, sorted, m, segment);
  }

  lemma SortedSegments(s: Resources, segment: Resource -> bool)
    ensures var sorted := Sort(SegmentsOf(s, segment), Older);
      Sorted(sorted, Older) && multiset(sorted) == multiset(SegmentsOf(s, segment)) &&
      |sorted| == |SegmentsOf(s, segment)| && multiset(sorted) <= multiset(s)
  {
    var segments := SegmentsOf(s, segment);
    assert Preorder(Older);
    Sorts(segments, Older);
    SameCountsSameMultiset(Sort(segments, Older), segments);
    forall x ensures multiset(segments)[x] <= multiset(s)[x] {
      SegmentCounts(s, segment, x);
    }
  }

  lemma {:induction false} SegmentsAfterRemove(s: Resources, k: string, segment: Resource -> bool)
    ensures |SegmentsOf(Remove(s, k), segment)| <= |SegmentsOf(s, segment)|
  {
    if s != [] && s[0].key != k {
      assert Remove(s, k)[1..] == Remove(s[1..], k);
      SegmentsAfterRemove(s[1..], k, segment);
    }
  }

  lemma {:induction false} SegmentsAfterAppend(s: Resources, e: Slot<string, Resource>, segment: Resource -> bool)
    ensures |SegmentsOf(s + [e], segment)| <= |SegmentsOf(s, segment)| + 1
  {
    if s == [] {
      assert (s + [e])[1..] == [];
    } else {
      assert (s + [e])[1..] == s[1..] + [e];
      SegmentsAfterAppend(s[1..], e, segment);
    }
  }

  // ----- Making room -----

  /** A segment finds at most 149 others: the oldest beyond that are gone. */
  ghost predicate Thinned(before: Resources, after: Resources, segment: Resource -> bool, forSegment: bool) {
    if forSegment && |SegmentsOf(before, segment)| >= MAX_SEGMENTS then
      OldestEvicted(before, after, segment) && |SegmentsOf(after, segment)| == MAX_SEGMENTS - 1
    else after == before
  }

  /** Any resource finds at most 499 others: beyond that, the weakest is gone. */
  ghost predicate Capped(before: Resources, after: Resources) {
    if |before| >= MAX_RESOURCES then WeakestGone(before, after) else after == before
  }

  /** What a newcomer leaves: the thinned segments, then the cap. */
  ghost predicate RoomMade(before: Resources, after: Resources, segment: Resource -> bool, forSegment: bool) {
    exists thinned :: Thinned(before, thinned, segment, forSegment) && Capped(thinned, after)
  }

  /** The newcomer comes last, behind what it leaves. */
  ghost predicate Entered(before: Resources, after: Resources, segment: Resource -> bool, e: Slot<string, Resource>) {
    exists left :: RoomMade(before, left, segment, segment(e.value)) && after == left + [e]
  }

  method Thin(s: Resources, segment: Resource -> bool, forSegment: bool) returns (r: Resources)
    requires Distinct(s)
    ensures Thinned(s, r, segment, forSegment) && Distinct(r) && |r| <= |s| && Part(Lookup(r), Lookup(s))
    ensures forSegment ==> |SegmentsOf(r, segment)| < MAX_SEGMENTS
  {
    r := s;
    if forSegment {
      r := EvictOldestSegments(s, segment, MAX_SEGMENTS - 1);
    }
  }

  method Cap(s: Resources) returns (r: Resources)
    requires Distinct(s) && |s| <= MAX_RESOURCES
    ensures Capped(s, r) && Distinct(r) && |r| < MAX_RESOURCES && Part(Lookup(r), Lookup(s))
  {
    r := s;
    if |s| >= MAX_RESOURCES {
      r := EvictLowest(s);
    }
  }

  lemma CappedSegments(s: Resources, r: Resources, segment: Resource -> bool)
    requires Capped(s, r)
    ensures |SegmentsOf(r, segment)| <= |SegmentsOf(s, segment)|
  {
    if |s| >= MAX_RESOURCES {
      var v: nat :| Weakest(s, v) && r == Remove(s, s[v].key);
      SegmentsAfterRemove(s, s[v].key, segment);
    }
  }

  /** The part of `ingestResources` that puts a new resource in. */
  method Enter(s: Resources, segment: Resource -> bool, e: Slot<string, Resource>) returns (r: Resources)
    requires ResourcesOk(s) && e.key !in Lookup(s) && e.value.id == e.key
    ensures ResourcesOk(r) && Entered(s, r, segment, e)
    ensures !segment(e.value) && |s| < MAX_RESOURCES ==> r == s + [e]
    ensures segment(e.value) ==> |SegmentsOf(r, segment)| <= MAX_SEGMENTS
  {
    var thinned := Thin(s, segment, segment(e.value));
    var left := Cap(thinned);
    CappedSegments(thinned, left, segment);
    assert RoomMade(s, left, segment, segment(e.value));
    AppendLookup(left, e.key, e.value);
    SegmentsAfterAppend(left, e, segment);
    r := left + [e];
  }

  // ----- Page changes -----

  /** The manifest playlists that survive a page change on the same site, marked as carried over. */
  function CarriedResources(s: Resources, manifest: Resource -> bool): Resources {
    if s == [] then []
    else
      (if Stays(s[0].value, manifest) then [Slot(s[0].key, s[0].value.(carried := true))] else []) +
      CarriedResources(s[1..], manifest)
  }

  predicate Stays(r: Resource, manifest: Resource -> bool) {
    !r.carried && manifest(r)
  }

  /** Under each key the resource that stays, marked. */
  function CarriedOver(m: map<string, Resource>, manifest: Resource -> bool): map<string, Resource> {
    map k | k in m && Stays(m[k], manifest) :: m[k].(carried := true)
  }

  lemma CarriedOne(m: map<string, Resource>, k: string, r: Resource, manifest: Resource -> bool)
    requires k !in m
    ensures CarriedOver(m[k := r], manifest) ==
      if Stays(r, manifest) then CarriedOver(m, manifest)[k := r.(carried := true)] else CarriedOver(m, manifest)
  {
  }

  lemma {:induction false} CarriedResourcesOk(s: Resources, manifest: Resource -> bool)
    requires Distinct(s)
    ensures Distinct(CarriedResources(s, manifest)) && |CarriedResources(s, manifest)| <= |s|
    ensures Lookup(CarriedResources(s, manifest)) == CarriedOver(Lookup(s), manifest)
  {
    if s != [] {
      CarriedResourcesOk(s[1..], manifest);
      CarriedOne(Lookup(s[1..]), s[0].key, s[0].value, manifest);
      var rest := CarriedResources(s[1..], manifest);
      if Stays(s[0].value, manifest) {
        Front(Slot(s[0].key, s[0].value.(carried := true)), rest);
      } else {
        assert CarriedResources(s, manifest) == rest;
      }
    }
  }

  lemma CarriedStayOk(s: Resources, manifest: Resource -> bool)
    requires ResourcesOk(s)
    ensures ResourcesOk(CarriedResources(s, manifest))
  {
    CarriedResourcesOk(s, manifest);
  }
}
