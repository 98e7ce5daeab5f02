/** The sniffing state of one browser tab (fluxDown/background/tab-state.ts). */
module TabState {
  import opened Options
  import opened OrderedMaps
  import opened TabResources

  const MAX_MANIFESTS: nat := 8
  const MAX_RETIRED: nat := 12

  // ----- Media elements and their sessions -----

  /** A sensor prefixes the keys of its elements with its own id. */
  datatype Key = Key(sid: string, n: nat)

  /** What a sensor reports of an element; `exact` tells whether some binding has exact evidence. */
  datatype Snapshot = Snapshot(
    key: Key, currentSrc: string, msId: Option<nat>, hid: Option<string>, exact: bool,
    playing: bool, title: string, visible: int, rest: string)

  datatype Placed = Placed(frame: nat, state: Snapshot)

  datatype SessionKey = MediaSource(hid: string, msId: nat) | Direct(src: string)

  function SessionKeyOf(s: Snapshot): Option<SessionKey> {
    if s.msId.Some? && s.exact then Some(MediaSource(if s.hid.Some? then s.hid.value else "", s.msId.value))
    else if s.currentSrc != "" then Some(Direct(s.currentSrc))
    else None
  }

  /** A past playback session of a frame, with the last evidence for it. */
  datatype Record = Record(frame: nat, session: SessionKey, state: Snapshot)

  datatype PlayTitle = PlayTitle(session: SessionKey, title: string)

  function Others(records: seq<Record>, frame: nat, session: SessionKey): (r: seq<Record>)
    ensures |r| <= |records|
    ensures forall i :: 0 <= i < |r| ==> !(r[i].frame == frame && r[i].session == session)
  {
    if records == [] then []
    else (if records[0].frame == frame && records[0].session == session then [] else [records[0]]) +
         Others(records[1..], frame, session)
  }

  function First(records: seq<Record>, n: nat): seq<Record> {
    if |records| <= n then records else records[..n]
  }

  /** The session is among the `n` most recent records. */
  ghost predicate SessionWithin(frame: nat, session: SessionKey, records: seq<Record>, n: nat) {
    exists i :: 0 <= i < |records| && i < n && records[i].frame == frame && records[i].session == session
  }

  ghost predicate SessionIn(frame: nat, session: SessionKey, records: seq<Record>) {
    SessionWithin(frame, session, records, |records|)
  }

  /** No two records of one frame speak of the same session. */
  ghost predicate DistinctSessions(records: seq<Record>) {
    forall i, j :: 0 <= i < j < |records| ==>
      records[i].frame != records[j].frame || records[i].session != records[j].session
  }

  lemma {:induction false} OthersDistinct(records: seq<Record>, frame: nat, session: SessionKey)
    requires DistinctSessions(records)
    ensures DistinctSessions(Others(records, frame, session))
    ensures forall i :: 0 <= i < |Others(records, frame, session)| ==> Others(records, frame, session)[i] in records
  {
    if records != [] {
      OthersDistinct(records[1..], frame, session);
      var rest := Others(records[1..], frame, session);
      forall i | 0 <= i < |rest|
        ensures records[0].frame != rest[i].frame || records[0].session != rest[i].session
      {
        assert rest[i] in records[1..];
      }
    }
  }

  /** The archive and the remembered titles after an element's session has ended. */
  function Archived(records: seq<Record>, e: Placed, title: string): seq<Record> {
    var session := SessionKeyOf(e.state);
    if session.None? then records
    else
      First([Record(e.frame, session.value, e.state.(playing := false, visible := 0, title := title))] +
            Others(records, e.frame, session.value), MAX_RETIRED)
  }

  ghost predicate RecordsOk(records: seq<Record>) {
    |records| <= MAX_RETIRED && DistinctSessions(records)
  }

  /** Archiving keeps the archive bounded and free of repetition, the ended session first. */
  lemma ArchivedOk(records: seq<Record>, e: Placed, title: string)
    requires RecordsOk(records)
    ensures RecordsOk(Archived(records, e, title))
    ensures SessionKeyOf(e.state).Some? ==> SessionIn(e.frame, SessionKeyOf(e.state).value, Archived(records, e, title))
  {
    var session := SessionKeyOf(e.state);
    if session.Some? {
      OthersDistinct(records, e.frame, session.value);
      var r := Archived(records, e, title);
      assert r[0].frame == e.frame && r[0].session == session.value;
    }
  }

  // ----- What a sensor's message does to the elements -----

  datatype Payload = Payload(elements: seq<Snapshot>, removed: seq<Key>, full: bool)

  function KeysIn(elements: seq<Snapshot>): set<Key> {
    set e | e in elements :: e.key
  }

  function AddAll(live: map<Key, Placed>, frame: nat, elements: seq<Snapshot>): map<Key, Placed>
    decreases |elements|
  {
    if elements == [] then live
    else AddAll(live[elements[0].key := Placed(frame, elements[0])], frame, elements[1..])
  }

  /** Elements of the same frame that belong to an older sensor. */
  predicate Stale(k: Key, e: Placed, frame: nat, sid: string) {
    e.frame == frame && k.sid != sid
  }

  /** Elements of this sensor that a full snapshot leaves out. */
  predicate Unlisted(k: Key, e: Placed, frame: nat, sid: string, elements: seq<Snapshot>) {
    e.frame == frame && k.sid == sid && k !in KeysIn(elements)
  }

  /** What a new sensor of the frame leaves of the elements. */
  function Adopted(live: map<Key, Placed>, frame: nat, sid: string): map<Key, Placed> {
    map k | k in live && !Stale(k, live[k], frame, sid) :: live[k]
  }

  /** What the removals and the omissions of a message leave. */
  function Remaining(live: map<Key, Placed>, frame: nat, sid: string, p: Payload): map<Key, Placed> {
    map k | k in live && k !in p.removed && !(p.full && Unlisted(k, live[k], frame, sid, p.elements)) :: live[k]
  }

  /** The elements after a message: what goes, then what comes. */
  function Received(live: map<Key, Placed>, known: bool, frame: nat, sid: string, p: Payload): map<Key, Placed> {
    AddAll(Remaining(if known then live else Adopted(live, frame, sid), frame, sid, p), frame, p.elements)
  }

  lemma {:induction false} AddAllKeys(live: map<Key, Placed>, frame: nat, elements: seq<Snapshot>)
    ensures AddAll(live, frame, elements).Keys == live.Keys + KeysIn(elements)
    ensures forall k :: k in AddAll(live, frame, elements) ==>
      (k !in KeysIn(elements) && AddAll(live, frame, elements)[k] == live[k]) ||
      (AddAll(live, frame, elements)[k].frame == frame && AddAll(live, frame, elements)[k].state in elements &&
       AddAll(live, frame, elements)[k].state.key == k)
    decreases |elements|
  {
    if elements != [] {
      AddAllKeys(live[elements[0].key := Placed(frame, elements[0])], frame, elements[1..]);
      assert elements == [elements[0]] + elements[1..];
      assert KeysIn(elements) == {elements[0].key} + KeysIn(elements[1..]);
    }
  }

  /** Every element stands under its own key and belongs to the sensor its frame is registered with. */
  ghost predicate ElementsMatch(live: map<Key, Placed>, sessions: map<nat, string>) {
    forall k :: k in live ==>
      live[k].state.key == k && live[k].frame in sessions && sessions[live[k].frame] == k.sid
  }

  ghost predicate OwnKeys(sid: string, elements: seq<Snapshot>) {
    forall i :: 0 <= i < |elements| ==> elements[i].key.sid == sid
  }

  predicate Known(sessions: map<nat, string>, frame: nat, sid: string) {
    frame in sessions && sessions[frame] == sid
  }

  /** A message keeps elements and registrations in step, whichever sensor of the frame it comes from. */
  lemma ReceivedMatches(live: map<Key, Placed>, sessions: map<nat, string>, frame: nat, sid: string, p: Payload)
    requires ElementsMatch(live, sessions) && OwnKeys(sid, p.elements)
    ensures ElementsMatch(Received(live, Known(sessions, frame, sid), frame, sid, p), sessions[frame := sid])
  {
    var known := Known(sessions, frame, sid);
    var kept := Remaining(if known then live else Adopted(live, frame, sid), frame, sid, p);
    assert ElementsMatch(kept, sessions[frame := sid]);
    AddAllKeys(kept, frame, p.elements);
  }

  /** A full snapshot settles a sensor's elements: afterwards the frame has exactly what it lists. */
  lemma FullSnapshotSettles(live: map<Key, Placed>, sessions: map<nat, string>, frame: nat, sid: string, p: Payload)
    requires ElementsMatch(live, sessions) && OwnKeys(sid, p.elements) && p.full
    ensures var after := Received(live, Known(sessions, frame, sid), frame, sid, p);
      forall k :: k in after && after[k].frame == frame <==> k in KeysIn(p.elements)
  {
    var known := Known(sessions, frame, sid);
    var kept := Remaining(if known then live else Adopted(live, frame, sid), frame, sid, p);
    AddAllKeys(kept, frame, p.elements);
    forall k | k in kept && kept[k].frame == frame ensures k in KeysIn(p.elements) {
      assert live[k].frame == frame;
    }
  }

  // ----- The elements together with their past -----

  /** The elements in the order they were first reported, the past sessions, and the titles played with. */
  datatype Media = Media(elements: seq<Slot<Key, Placed>>, retired: seq<Record>, titles: map<Key, PlayTitle>)

  /** The element still has the title it played its present session with. */
  predicate Played(titles: map<Key, PlayTitle>, e: Placed) {
    SessionKeyOf(e.state).Some? && e.state.key in titles && titles[e.state.key].session == SessionKeyOf(e.state).value
  }

  /** The session an element is leaving goes to the archive, under the title it played with. */
  function Ended(m: Media, e: Placed): Media {
    var title := if Played(m.titles, e) then m.titles[e.state.key].title else "";
    m.(retired := Archived(m.retired, e, if title != "" then title else e.state.title),
       titles := if Played(m.titles, e) then m.titles - {e.state.key} else m.titles)
  }

  function Forgotten(m: Media, key: Key, titleToo: bool): Media {
    m.(elements := Remove(m.elements, key), titles := if titleToo then m.titles - {key} else m.titles)
  }

  /** Elements go one after the other, each leaving its session in the archive. */
  function Dropped(m: Media, keys: seq<Key>, titlesToo: bool): Media
    decreases |keys|
  {
    if keys == [] then m
    else if keys[0] !in Lookup(m.elements) then Dropped(m, keys[1..], titlesToo)
    else Dropped(Forgotten(Ended(m, Lookup(m.elements)[keys[0]]), keys[0], titlesToo), keys[1..], titlesToo)
  }

  function StaleKeys(elements: seq<Slot<Key, Placed>>, frame: nat, sid: string): seq<Key> {
    KeysOf(Keep(elements, (e: Slot<Key, Placed>) => Stale(e.key, e.value, frame, sid)))
  }

  function UnlistedKeys(elements: seq<Slot<Key, Placed>>, frame: nat, sid: string, states: seq<Snapshot>): seq<Key> {
    KeysOf(Keep(elements, (e: Slot<Key, Placed>) => Unlisted(e.key, e.value, frame, sid, states)))
  }

  /** What goes before the reported elements come. */
  function Pruned(m: Media, frame: nat, sid: string, p: Payload): Media {
    var rest := Dropped(m, p.removed, true);
    if p.full then Dropped(rest, UnlistedKeys(rest.elements, frame, sid, p.elements), true) else rest
  }

  /** A reported element: a session it has left ends, and its present one no longer counts as past. */
  function Stored(m: Media, frame: nat, s: Snapshot): Media {
    var session := SessionKeyOf(s);
    var left :=
      if s.key in Lookup(m.elements) && SessionKeyOf(Lookup(m.elements)[s.key].state) != session then
        Ended(m, Lookup(m.elements)[s.key])
      else m;
    Media(
      Put(left.elements, s.key, Placed(frame, s)),
      if session.Some? then Others(left.retired, frame, session.value) else left.retired,
      if session.Some? && s.playing && s.title != "" then left.titles[s.key := PlayTitle(session.value, s.title)]
      else left.titles)
  }

  function StoredAll(m: Media, frame: nat, states: seq<Snapshot>): Media
    decreases |states|
  {
    if states == [] then m else StoredAll(Stored(m, frame, states[0]), frame, states[1..])
  }

  /** A whole message of a sensor. */
  function Updated(m: Media, known: bool, frame: nat, sid: string, p: Payload): Media {
    var own := if known then m else Dropped(m, StaleKeys(m.elements, frame, sid), false);
    StoredAll(Pruned(own, frame, sid, p), frame, p.elements)
  }

  ghost predicate MediaOk(m: Media) {
    Distinct(m.elements) && RecordsOk(m.retired)
  }

  lemma {:induction false} DroppedElements(m: Media, keys: seq<Key>, titlesToo: bool)
    requires MediaOk(m)
    ensures MediaOk(Dropped(m, keys, titlesToo))
    ensures Lookup(Dropped(m, keys, titlesToo).elements) == Without(Lookup(m.elements), keys)
    decreases |keys|
  {
    if keys == [] {
    } else if keys[0] !in Lookup(m.elements) {
      assert Lookup(m.elements) - {keys[0]} == Lookup(m.elements);
      DroppedElements(m, keys[1..], titlesToo);
    } else {
      var ended := Ended(m, Lookup(m.elements)[keys[0]]);
      EndedOk(m, Lookup(m.elements)[keys[0]]);
      RemoveLookup(m.elements, keys[0]);
      DroppedElements(Forgotten(ended, keys[0], titlesToo), keys[1..], titlesToo);
    }
  }

  lemma EndedOk(m: Media, e: Placed)
    requires RecordsOk(m.retired)
    ensures RecordsOk(Ended(m, e).retired)
  {
    var title := if Played(m.titles, e) then m.titles[e.state.key].title else "";
    ArchivedOk(m.retired, e, if title != "" then title else e.state.title);
  }

  lemma StaleElements(m: Media, frame: nat, sid: string)
    requires MediaOk(m)
    ensures var after := Dropped(m, StaleKeys(m.elements, frame, sid), false);
      MediaOk(after) && Lookup(after.elements) == Adopted(Lookup(m.elements), frame, sid)
  {
    var keys := StaleKeys(m.elements, frame, sid);
    KeepLookup(m.elements, (e: Slot<Key, Placed>) => Stale(e.key, e.value, frame, sid));
    KeysOfLookup(Keep(m.elements, (e: Slot<Key, Placed>) => Stale(e.key, e.value, frame, sid)));
    WithoutIs(Lookup(m.elements), keys);
    DroppedElements(m, keys, false);
  }

  lemma UnlistedElements(m: Media, frame: nat, sid: string, states: seq<Snapshot>)
    requires MediaOk(m)
    ensures var after := Dropped(m, UnlistedKeys(m.elements, frame, sid, states), true);
      var was := Lookup(m.elements);
      MediaOk(after) &&
      Lookup(after.elements) == map k | k in was && !Unlisted(k, was[k], frame, sid, states) :: was[k]
  {
    var keys := UnlistedKeys(m.elements, frame, sid, states);
    KeepLookup(m.elements, (e: Slot<Key, Placed>) => Unlisted(e.key, e.value, frame, sid, states));
    KeysOfLookup(Keep(m.elements, (e: Slot<Key, Placed>) => Unlisted(e.key, e.value, frame, sid, states)));
    WithoutIs(Lookup(m.elements), keys);
    DroppedElements(m, keys, true);
  }

  lemma PrunedElements(m: Media, frame: nat, sid: string, p: Payload)
    requires MediaOk(m)
    ensures MediaOk(Pruned(m, frame, sid, p))
    ensures Lookup(Pruned(m, frame, sid, p).elements) == Remaining(Lookup(m.elements), frame, sid, p)
  {
    WithoutIs(Lookup(m.elements), p.removed);
    DroppedElements(m, p.removed, true);
    if p.full {
      UnlistedElements(Dropped(m, p.removed, true), frame, sid, p.elements);
    }
  }

  lemma StoredElements(m: Media, frame: nat, s: Snapshot)
    requires MediaOk(m)
    ensures MediaOk(Stored(m, frame, s))
    ensures Lookup(Stored(m, frame, s).elements) == Lookup(m.elements)[s.key := Placed(frame, s)]
  {
    PutLookup(m.elements, s.key, Placed(frame, s));
    var left := m;
    if s.key in Lookup(m.elements) && SessionKeyOf(Lookup(m.elements)[s.key].state) != SessionKeyOf(s) {
      left := Ended(m, Lookup(m.elements)[s.key]);
      EndedOk(m, Lookup(m.elements)[s.key]);
    }
    if SessionKeyOf(s).Some? {
      OthersDistinct(left.retired, frame, SessionKeyOf(s).value);
    }
  }

  lemma {:induction false} StoredAllElements(m: Media, frame: nat, states: seq<Snapshot>)
    requires MediaOk(m)
    ensures MediaOk(StoredAll(m, frame, states))
    ensures Lookup(StoredAll(m, frame, states).elements) == AddAll(Lookup(m.elements), frame, states)
    decreases |states|
  {
    if states != [] {
      StoredElements(m, frame, states[0]);
      StoredAllElements(Stored(m, frame, states[0]), frame, states[1..]);
    }
  }

  /** As far as the elements go, a message does what `Received` says. */
  lemma UpdatedElements(m: Media, known: bool, frame: nat, sid: string, p: Payload)
    requires MediaOk(m)
    ensures MediaOk(Updated(m, known, frame, sid, p))
    ensures Lookup(Updated(m, known, frame, sid, p).elements) == Received(Lookup(m.elements), known, frame, sid, p)
  {
    StaleElements(m, frame, sid);
    var own := if known then m else Dropped(m, StaleKeys(m.elements, frame, sid), false);
    PrunedElements(own, frame, sid, p);
    StoredAllElements(Pruned(own, frame, sid, p), frame, p.elements);
  }

  // ----- Rules -----

  datatype Report = Report(url: string, pageUrl: string, body: string)

  datatype UrlChange = Push | Pop | Document | Replace | TabUpdate

  /** The rule engine and URL functions, opaque here. */
  datatype Rules = Rules(
    ignored: (Report, string) -> bool,
    dedupeKey: (string, string) -> string,
    build: (Report, string) -> Resource,
    merge: (Resource, Report) -> Resource,
    worthShowing: Resource -> bool,
    segment: Resource -> bool,
    manifest: Resource -> bool,
    urlKey: string -> string,
    pageChange: (UrlChange, string, string) -> bool,
    host: string -> string)

  predicate Local(url: string) {
    url == "" || "blob:" <= url || "data:" <= url
  }

  // ----- The tab -----

  function KeysOf<K, V>(s: seq<Slot<K, V>>): seq<K> {
    if s == [] then [] else [s[0].key] + KeysOf(s[1..])
  }

  lemma {:induction false} KeysOfLookup<K, V>(s: seq<Slot<K, V>>)
    ensures forall k :: k in KeysOf(s) <==> k in Lookup(s)
  {
    if s != [] {
      KeysOfLookup(s[1..]);
    }
  }

  function Without<V>(m: map<Key, V>, keys: seq<Key>): map<Key, V>
    decreases |keys|
  {
    if keys == [] then m else Without(m - {keys[0]}, keys[1..])
  }

  lemma {:induction false} WithoutIs<V>(m: map<Key, V>, keys: seq<Key>)
    ensures Without(m, keys) == map k | k in m && k !in keys :: m[k]
    decreases |keys|
  {
    if keys != [] {
      WithoutIs(m - {keys[0]}, keys[1..]);
      assert keys == [keys[0]] + keys[1..];
    }
  }

  type Manifests = seq<Slot<string, string>>

  /**
   * `ages` counts the page changes since each manifest was last observed: none is kept for two, and
   * the carried ones are those kept for one.
   */
  ghost predicate ManifestsOk(s: Manifests, carried: set<string>, ages: map<string, nat>) {
    Distinct(s) && |s| <= MAX_MANIFESTS && carried <= Lookup(s).Keys &&
    (forall k :: k in Lookup(s) ==> k in ages && ages[k] <= 1 && (ages[k] == 1 <==> k in carried))
  }

  function Aged(ages: map<string, nat>): map<string, nat> {
    map k | k in ages :: ages[k] + 1
  }

  /** The manifests that a page change leaves: on the same site, those not yet carried over. */
  function Survivors(s: Manifests, carried: set<string>, carry: bool): Manifests {
    if carry then Keep(s, (e: Slot<string, string>) => e.key !in carried) else []
  }

  lemma SurvivorsOk(s: Manifests, carried: set<string>, carry: bool, ages: map<string, nat>)
    requires ManifestsOk(s, carried, ages)
    ensures var left := Survivors(s, carried, carry);
      ManifestsOk(left, Lookup(left).Keys, Aged(ages)) &&
      Lookup(left) == map k | k in Lookup(s) && carry && k !in carried :: Lookup(s)[k]
  {
    KeepLookup(s, (e: Slot<string, string>) => e.key !in carried);
  }

  /** The manifests after an observation, and the key that gives way to it. */
  function Observed(s: Manifests, key: string, body: string): Manifests {
    var all := Remove(s, key) + [Slot(key, body)];
    if |all| > MAX_MANIFESTS then all[1..] else all
  }

  function Displaced(s: Manifests, key: string, body: string): set<string> {
    var all := Remove(s, key) + [Slot(key, body)];
    if |all| > MAX_MANIFESTS then {all[0].key} else {}
  }

  lemma DropFirst<K, V>(s: seq<Slot<K, V>>)
    requires Distinct(s) && s != []
    ensures Distinct(s[1..]) && Lookup(s[1..]) == Lookup(s) - {s[0].key}
  {
  }

  lemma ObservedOk(s: Manifests, carried: set<string>, ages: map<string, nat>, key: string, body: string)
    requires ManifestsOk(s, carried, ages)
    ensures var after := Observed(s, key, body);
      Distinct(after) && |after| <= MAX_MANIFESTS && key in Lookup(after) && Lookup(after)[key] == body &&
      ManifestsOk(after, carried - {key} - Displaced(s, key, body), ages[key := 0])
  {
    RemoveLookup(s, key);
    var rest := Remove(s, key);
    AppendLookup(rest, key, body);
    if |rest| >= MAX_MANIFESTS {
      assert (rest + [Slot(key, body)])[0] == rest[0];
      At(rest, 0);
      DropFirst(rest + [Slot(key, body)]);
    }
  }

  class Tab {
    const rules: Rules
    var pageUrl: string
    /** The page URL that the current projection started with, and the URL keys that belong to it. */
    var navUrl: string
    var pageKeys: set<string>
    var resources: Resources
    var manifests: Manifests
    var carried: set<string>
    var elements: seq<Slot<Key, Placed>>
    var sessions: map<nat, string>
    var retired: seq<Record>
    var playTitles: map<Key, PlayTitle>
    /** Page changes since a manifest was last observed. */
    ghost var ages: map<string, nat>

    ghost predicate ElementsOk()
      reads this`elements, this`sessions
    {
      Distinct(elements) && ElementsMatch(Lookup(elements), sessions)
    }

    ghost predicate PagesOk()
      reads this`navUrl, this`pageKeys
    {
      (navUrl == "" <==> pageKeys == {}) && (navUrl != "" ==> rules.urlKey(navUrl) in pageKeys)
    }

    ghost predicate Valid()
      reads this
    {
      ResourcesOk(resources) && ManifestsOk(manifests, carried, ages) && ElementsOk() && RecordsOk(retired) && PagesOk()
    }

    constructor (rules: Rules)
      ensures Valid() && this.rules == rules && resources == [] && manifests == [] && elements == [] && navUrl == ""
    {
      this.rules := rules;
      pageUrl, navUrl, pageKeys := "", "", {};
      resources, manifests, carried, ages := [], [], {}, map[];
      elements, sessions, retired, playTitles := [], map[], [], map[];
    }

    // ----- Elements -----

    function Now(): Media
      reads this`elements, this`retired, this`playTitles
    {
      Media(elements, retired, playTitles)
    }

    /** `retire`: archives the session an element is leaving, under the title it played with. */
    method Retire(e: Placed)
      modifies this`retired, this`playTitles
      ensures Now() == Ended(old(Now()), e)
    {
      var session := SessionKeyOf(e.state);
      if session.None? { return; }
      var title := "";
      if e.state.key in playTitles && playTitles[e.state.key].session == session.value {
        title := playTitles[e.state.key].title;
        playTitles := playTitles - {e.state.key};
      }
      if title == "" { title := e.state.title; }
      var record := Record(e.frame, session.value, e.state.(playing := false, visible := 0, title := title));
      retired := First([record] + Others(retired, e.frame, session.value), MAX_RETIRED);
    }

    /** Archives and drops the elements with these keys. */
    method DropAll(keys: seq<Key>, forgetTitles: bool)
      modifies this`elements, this`retired, this`playTitles
      ensures Now() == Dropped(old(Now()), keys, forgetTitles)
    {
      assert keys[0..] == keys;
      for i := 0 to |keys|
        invariant Dropped(Now(), keys[i..], forgetTitles) == Dropped(old(Now()), keys, forgetTitles)
      {
        assert keys[i..][0] == keys[i] && keys[i..][1..] == keys[i + 1..];
        if keys[i] in Lookup(elements) {
          Retire(Lookup(elements)[keys[i]]);
          elements := Remove(elements, keys[i]);
          if forgetTitles { playTitles := playTitles - {keys[i]}; }
        }
      }
      assert keys[|keys|..] == [];
    }

    /** `adoptSession`: a new sensor in a frame replaces the elements of the old one. */
    method AdoptSession(frame: nat, sid: string) returns (changed: bool)
      modifies this`sessions, this`elements, this`retired, this`playTitles
      ensures changed == !Known(old(sessions), frame, sid) && sessions == old(sessions)[frame := sid]
      ensures Now() == if changed then Dropped(old(Now()), StaleKeys(old(elements), frame, sid), false) else old(Now())
    {
      if frame in sessions && sessions[frame] == sid { return false; }
      sessions := sessions[frame := sid];
      DropAll(StaleKeys(elements, frame, sid), false);
      return true;
    }

    /** `registerSession`: the handshake of a sensor. */
    method RegisterSession(frame: nat, sid: string)
      requires Valid()
      modifies this`sessions, this`elements, this`retired, this`playTitles
      ensures Valid() && sessions == old(sessions)[frame := sid]
      ensures Lookup(elements) ==
        if Known(old(sessions), frame, sid) then Lookup(old(elements)) else Adopted(Lookup(old(elements)), frame, sid)
    {
      StaleElements(Now(), frame, sid);
      var changed := AdoptSession(frame, sid);
    }

    /** One reported element: its former session is archived, its present one no longer counts as past. */
    method Store(frame: nat, s: Snapshot)
      modifies this`elements, this`retired, this`playTitles
      ensures Now() == Stored(old(Now()), frame, s)
    {
      var session := SessionKeyOf(s);
      if s.key in Lookup(elements) && SessionKeyOf(Lookup(elements)[s.key].state) != session {
        Retire(Lookup(elements)[s.key]);
      }
      if session.Some? {
        retired := Others(retired, frame, session.value);
        if s.playing && s.title != "" {
          playTitles := playTitles[s.key := PlayTitle(session.value, s.title)];
        }
      }
      elements := Put(elements, s.key, Placed(frame, s));
    }

    method StoreAll(frame: nat, states: seq<Snapshot>)
      modifies this`elements, this`retired, this`playTitles
      ensures Now() == StoredAll(old(Now()), frame, states)
    {
      assert states[0..] == states;
      for i := 0 to |states|
        invariant StoredAll(Now(), frame, states[i..]) == StoredAll(old(Now()), frame, states)
      {
        assert states[i..][0] == states[i] && states[i..][1..] == states[i + 1..];
        Store(frame, states[i]);
      }
      assert states[|states|..] == [];
    }

    /** What goes before the reported elements come; a full snapshot also drops what it leaves out. */
    method Prune(frame: nat, sid: string, p: Payload)
      modifies this`elements, this`retired, this`playTitles
      ensures Now() == Pruned(old(Now()), frame, sid, p)
    {
      DropAll(p.removed, true);
      if p.full {
        DropAll(UnlistedKeys(elements, frame, sid, p.elements), true);
      }
    }

    /** The changes of `updateElements`. */
    method Apply(frame: nat, sid: string, p: Payload)
      modifies this`sessions, this`elements, this`retired, this`playTitles
      ensures sessions == old(sessions)[frame := sid]
      ensures Now() == Updated(old(Now()), Known(old(sessions), frame, sid), frame, sid, p)
    {
      if !Known(sessions, frame, sid) {
        var _ := AdoptSession(frame, sid);
      }
      Prune(frame, sid, p);
      StoreAll(frame, p.elements);
    }

    /** `updateElements`: applies a sensor's message; true asks the sensor for a full snapshot. */
    method UpdateElements(frame: nat, sid: string, p: Payload) returns (resync: bool)
      requires Valid() && OwnKeys(sid, p.elements)
      modifies this`sessions, this`elements, this`retired, this`playTitles
      ensures Valid() && sessions == old(sessions)[frame := sid]
      ensures Now() == Updated(old(Now()), Known(old(sessions), frame, sid), frame, sid, p)
      ensures Lookup(elements) == Received(Lookup(old(elements)), Known(old(sessions), frame, sid), frame, sid, p)
      ensures resync <==> !Known(old(sessions), frame, sid) && !p.full
    {
      ReceivedMatches(Lookup(elements), sessions, frame, sid, p);
      UpdatedElements(Now(), Known(sessions, frame, sid), frame, sid, p);
      resync := !Known(sessions, frame, sid) && !p.full;
      Apply(frame, sid, p);
    }

    // ----- Pages -----

    /** The part of `clearTab` that deals with manifests. */
    method CarryManifests(carry: bool)
      requires ManifestsOk(manifests, carried, ages)
      modifies this`manifests, this`carried, this`ages
      ensures ManifestsOk(manifests, carried, ages) && ages == Aged(old(ages))
      ensures manifests == Survivors(old(manifests), old(carried), carry) && carried == Lookup(manifests).Keys
      ensures carried !! old(carried)
    {
      SurvivorsOk(manifests, carried, carry, ages);
      manifests := Survivors(manifests, carried, carry);
      carried := Lookup(manifests).Keys;
      ages := Aged(ages);
    }

    /** The part of `clearTab` that deals with resources. */
    method CarryResources(carry: bool)
      requires ResourcesOk(resources)
      modifies this`resources
      ensures ResourcesOk(resources)
      ensures resources == if carry then CarriedResources(old(resources), rules.manifest) else []
    {
      CarriedStayOk(resources, rules.manifest);
      resources := if carry then CarriedResources(resources, rules.manifest) else [];
    }

    method ForgetElements(keepFrames: bool)
      modifies this`elements, this`sessions, this`retired, this`playTitles
      ensures ElementsOk() && RecordsOk(retired)
      ensures Now() == Media([], [], map[]) && sessions == if keepFrames then old(sessions) else map[]
    {
      elements, retired, playTitles := [], [], map[];
      if !keepFrames { sessions := map[]; }
    }

    /** `clearTab`: starts a new projection; on the same site the manifests last one page longer. */
    method Clear(keepFrames: bool, carry: bool)
      requires Valid()
      modifies this`resources, this`manifests, this`carried, this`elements, this`sessions, this`retired, this`playTitles, this`ages
      ensures Valid() && ages == Aged(old(ages))
      ensures Now() == Media([], [], map[]) && sessions == if keepFrames then old(sessions) else map[]
      ensures resources == if carry then CarriedResources(old(resources), rules.manifest) else []
      ensures manifests == Survivors(old(manifests), old(carried), carry) && carried == Lookup(manifests).Keys
      ensures carried !! old(carried)
    {
      CarryResources(carry);
      CarryManifests(carry);
      ForgetElements(keepFrames);
    }

    /** The page of a report belongs to the projection. */
    predicate IsCurrentPage(url: string)
      reads this`navUrl, this`pageKeys
    {
      url == "" || navUrl == "" || rules.urlKey(url) in pageKeys
    }

    /** A page change by the rules of `syncTabPageUrl`. */
    predicate IsChange(url: string, kind: UrlChange)
      reads this`navUrl, this`pageKeys
    {
      navUrl != "" &&
      if kind.Replace? || kind.TabUpdate? then rules.pageChange(kind, navUrl, url) else rules.urlKey(url) !in pageKeys
    }

    /**
     * `syncTabPageUrl`: a page change starts a new projection; any other address change leaves the
     * sniffed state alone, and unless only the tab reported it, both old and new reports stay current.
     */
    method SyncPageUrl(url: string, kind: UrlChange)
      requires Valid()
      modifies this
      ensures Valid()
      ensures url == "" ==> pageUrl == old(pageUrl) && pageKeys == old(pageKeys)
      ensures url != "" ==> pageUrl == url
      ensures url != "" && old(IsChange(url, kind)) ==>
        navUrl == url && pageKeys == {rules.urlKey(url)} && Now() == Media([], [], map[]) &&
        sessions == if kind != TabUpdate then old(sessions) else map[]
      ensures url != "" && old(IsChange(url, kind)) ==>
        var sameSite := rules.host(old(navUrl)) == rules.host(url);
        resources == (if sameSite then CarriedResources(old(resources), rules.manifest) else []) &&
        manifests == Survivors(old(manifests), old(carried), sameSite) &&
        carried == Lookup(manifests).Keys && carried !! old(carried) && ages == Aged(old(ages))
      ensures url == "" || !old(IsChange(url, kind)) ==>
        resources == old(resources) && manifests == old(manifests) && carried == old(carried) && ages == old(ages) &&
        Now() == old(Now()) && sessions == old(sessions) && old(pageKeys) <= pageKeys
      ensures kind != TabUpdate || old(IsChange(url, kind)) ==> IsCurrentPage(url)
    {
      if url == "" { return; }
      var key := rules.urlKey(url);
      var changed := IsChange(url, kind);
      var previousNav := navUrl;
      pageUrl := url;
      if navUrl == "" || changed {
        navUrl := url;
        pageKeys := {key};
      } else if kind != TabUpdate {
        pageKeys := pageKeys + {key};
      }
      if changed {
        Clear(kind != TabUpdate, rules.host(previousNav) == rules.host(url));
      }
    }

    // ----- Manifests -----

    /** `addManifest`: the newest observation of a manifest comes last, and the oldest give way. */
    method AddManifest(key: string, body: string)
      requires Valid()
      modifies this`manifests, this`carried, this`ages
      ensures Valid() && ages == old(ages)[key := 0] && carried <= old(carried) - {key}
      ensures manifests == Observed(old(manifests), key, body)
      ensures key in Lookup(manifests) && Lookup(manifests)[key] == body
    {
      ObservedOk(manifests, carried, ages, key, body);
      var all := Remove(manifests, key) + [Slot(key, body)];
      carried := carried - {key};
      if |all| > MAX_MANIFESTS {
        carried := carried - {all[0].key};
        all := all[1..];
      }
      manifests, ages := all, ages[key := 0];
    }

    /** `clearResourcesOnly`. */
    method ClearResourcesOnly()
      requires Valid()
      modifies this`resources, this`manifests, this`carried
      ensures Valid() && resources == [] && manifests == [] && carried == {}
    {
      resources, manifests, carried := [], [], {};
    }

    /** A manifest that was not observed again is gone after two page changes. */
    lemma GoneAfterTwoPageChanges(key: string)
      requires Valid() && key in ages && ages[key] >= 2
      ensures key !in Lookup(manifests) && key !in carried
    {
    }

    // ----- Resources -----

    function EffectivePage(report: Report, page: string): string
      reads this`pageUrl
    {
      if report.pageUrl != "" then report.pageUrl else if page != "" then page else pageUrl
    }

    /** One turn of `ingestResources`. */
    method IngestOne(report: Report, page: string) returns (added: bool)
      requires Valid()
      modifies this`resources
      ensures Valid()
      ensures var id := rules.dedupeKey(report.url, EffectivePage(report, page));
        var before := Lookup(old(resources));
        var entry := rules.build(report, EffectivePage(report, page)).(id := id);
        var outside := Local(report.url) || rules.ignored(report, EffectivePage(report, page));
        (added <==> !outside && id !in before && rules.worthShowing(entry)) &&
        (added ==> Entered(old(resources), resources, rules.segment, Slot(id, entry))) &&
        (!added && (outside || id !in before) ==> resources == old(resources)) &&
        (!outside && id in before ==>
          resources == Put(old(resources), id, rules.merge(before[id], report).(id := id, carried := false)))
    {
      var effective := EffectivePage(report, page);
      if Local(report.url) || rules.ignored(report, effective) { return false; }
      var id := rules.dedupeKey(report.url, effective);
      if id in Lookup(resources) {
        var merged := rules.merge(Lookup(resources)[id], report).(id := id, carried := false);
        PutLookup(resources, id, merged);
        resources := Put(resources, id, merged);
        return false;
      }
      var resource := rules.build(report, effective).(id := id);
      if !rules.worthShowing(resource) { return false; }
      Add(id, resource);
      return true;
    }

    /** A new resource enters: the oldest segments and the weakest make room. */
    method Add(id: string, resource: Resource)
      requires ResourcesOk(resources) && id !in Lookup(resources) && resource.id == id
      modifies this`resources
      ensures ResourcesOk(resources) && Entered(old(resources), resources, rules.segment, Slot(id, resource))
      ensures !rules.segment(resource) && |old(resources)| < MAX_RESOURCES ==>
        resources == old(resources) + [Slot(id, resource)]
      ensures rules.segment(resource) ==> |SegmentsOf(resources, rules.segment)| <= MAX_SEGMENTS
    {
      resources := Enter(resources, rules.segment, Slot(id, resource));
    }

    /** `ingestResources`. */
    method Ingest(page: string, reports: seq<Report>) returns (added: nat)
      requires Valid()
      modifies this`resources
      ensures Valid() && added <= |reports|
    {
      added := 0;
      for i := 0 to |reports|
        invariant Valid() && added <= i
      {
        var isNew := IngestOne(reports[i], page);
        if isNew { added := added + 1; }
      }
    }
  }
}
