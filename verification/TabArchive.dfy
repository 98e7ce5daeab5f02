/**
 * What a sensor's message does to the archive of past playback sessions (fluxDown/background/tab-state.ts):
 * which sessions are in it afterwards, and under which title.
 */
module TabArchive {
  import opened Options
  import opened OrderedMaps
  import opened TabState

  // ----- Counting the sessions that end -----

  function Ending(e: Placed): nat {
    if SessionKeyOf(e.state).Some? then 1 else 0
  }

  /** The sessions that end when the elements with these keys go. */
  function Drops(live: map<Key, Placed>, keys: seq<Key>): nat
    decreases |keys|
  {
    if keys == [] then 0
    else if keys[0] !in live then Drops(live, keys[1..])
    else Ending(live[keys[0]]) + Drops(live - {keys[0]}, keys[1..])
  }

  /** The reported element leaves session x of frame f. */
  predicate Leaves(live: map<Key, Placed>, s: Snapshot, f: nat, x: SessionKey) {
    s.key in live && live[s.key].frame == f && SessionKeyOf(live[s.key].state) == Some(x) && SessionKeyOf(s) != Some(x)
  }

  function Left(live: map<Key, Placed>, s: Snapshot): nat {
    if s.key in live && SessionKeyOf(live[s.key].state) != SessionKeyOf(s) then Ending(live[s.key]) else 0
  }

  /** The sessions that end while these elements are reported. */
  function Endings(live: map<Key, Placed>, frame: nat, states: seq<Snapshot>): nat
    decreases |states|
  {
    if states == [] then 0
    else Left(live, states[0]) + Endings(live[states[0].key := Placed(frame, states[0])], frame, states[1..])
  }

  /** The elements just before the j-th is reported. */
  function Before(live: map<Key, Placed>, frame: nat, states: seq<Snapshot>, j: nat): map<Key, Placed>
    requires j <= |states|
  {
    AddAll(live, frame, states[..j])
  }

  lemma BeforeNext(live: map<Key, Placed>, frame: nat, states: seq<Snapshot>, j: nat)
    requires 0 < j <= |states|
    ensures Before(live, frame, states, j) ==
            Before(live[states[0].key := Placed(frame, states[0])], frame, states[1..], j - 1)
  {
    assert states[..j][1..] == states[1..][..j - 1] && states[..j][0] == states[0];
  }

  /** Reporting the j-th element ends session x of frame f. */
  ghost predicate LeftAt(live: map<Key, Placed>, frame: nat, states: seq<Snapshot>, j: nat, f: nat, x: SessionKey) {
    j < |states| && Leaves(Before(live, frame, states, j), states[j], f, x)
  }

  /** An element reported from the j-th on plays session x. */
  ghost predicate TakenUp(states: seq<Snapshot>, j: nat, x: SessionKey) {
    exists i :: j <= i < |states| && SessionKeyOf(states[i]) == Some(x)
  }

  lemma TakenUpLater(states: seq<Snapshot>, j: nat, x: SessionKey)
    requires states != [] && TakenUp(states[1..], j, x)
    ensures TakenUp(states, j + 1, x)
  {
    var i :| j <= i < |states[1..]| && SessionKeyOf(states[1..][i]) == Some(x);
    assert SessionKeyOf(states[i + 1]) == Some(x);
  }

  // ----- Sessions and records among the latest ones -----

  lemma {:induction false} OthersWithin(
    records: seq<Record>, frame: nat, session: SessionKey, f: nat, x: SessionKey, n: nat)
    requires SessionWithin(f, x, records, n) && (f != frame || x != session)
    ensures SessionWithin(f, x, Others(records, frame, session), n)
  {
    var i :| 0 <= i < |records| && i < n && records[i].frame == f && records[i].session == x;
    var rest := Others(records[1..], frame, session);
    if i == 0 {
      assert Others(records, frame, session)[0] == records[0];
    } else {
      assert records[1..][i - 1] == records[i];
      OthersWithin(records[1..], frame, session, f, x, n - 1);
      var j :| 0 <= j < |rest| && j < n - 1 && rest[j].frame == f && rest[j].session == x;
      var all := Others(records, frame, session);
      assert all == rest || all[j + 1] == rest[j];
    }
  }

  /** One more session in the archive moves another back by one place at most. */
  lemma ArchivedWithin(records: seq<Record>, e: Placed, title: string, f: nat, x: SessionKey, n: nat)
    requires SessionWithin(f, x, records, n) && n + Ending(e) <= MAX_RETIRED
    ensures SessionWithin(f, x, Archived(records, e, title), n + Ending(e))
  {
    var session, after := SessionKeyOf(e.state), Archived(records, e, title);
    if session.Some? {
      if f == e.frame && x == session.value {
        assert after[0].frame == f && after[0].session == x;
      } else {
        OthersWithin(records, e.frame, session.value, f, x, n);
        var rest := Others(records, e.frame, session.value);
        var i :| 0 <= i < |rest| && i < n && rest[i].frame == f && rest[i].session == x;
        assert after[i + 1] == rest[i];
      }
    }
  }

  lemma EndedWithin(m: Media, e: Placed, f: nat, x: SessionKey, n: nat)
    requires SessionWithin(f, x, m.retired, n) && n + Ending(e) <= MAX_RETIRED
    ensures SessionWithin(f, x, Ended(m, e).retired, n + Ending(e))
  {
    var title := if Played(m.titles, e) then m.titles[e.state.key].title else "";
    ArchivedWithin(m.retired, e, if title != "" then title else e.state.title, f, x, n);
  }

  /** The session that ends is the latest. */
  lemma EndedIsFirst(m: Media, e: Placed)
    requires SessionKeyOf(e.state).Some?
    ensures SessionWithin(e.frame, SessionKeyOf(e.state).value, Ended(m, e).retired, 1)
  {
    var r := Ended(m, e).retired;
    assert r[0].frame == e.frame && r[0].session == SessionKeyOf(e.state).value;
  }

  lemma {:induction false} DroppedWithin(m: Media, keys: seq<Key>, titlesToo: bool, f: nat, x: SessionKey, n: nat)
    requires MediaOk(m) && SessionWithin(f, x, m.retired, n) && n + Drops(Lookup(m.elements), keys) <= MAX_RETIRED
    ensures SessionWithin(f, x, Dropped(m, keys, titlesToo).retired, n + Drops(Lookup(m.elements), keys))
    decreases |keys|
  {
    if keys == [] {
    } else if keys[0] !in Lookup(m.elements) {
      DroppedWithin(m, keys[1..], titlesToo, f, x, n);
    } else {
      var e := Lookup(m.elements)[keys[0]];
      EndedOk(m, e);
      EndedWithin(m, e, f, x, n);
      RemoveLookup(m.elements, keys[0]);
      DroppedWithin(Forgotten(Ended(m, e), keys[0], titlesToo), keys[1..], titlesToo, f, x, n + Ending(e));
    }
  }

  /** Of elements that go together, each one's session is in the archive, if no more than 12 sessions end. */
  lemma {:induction false} EndedSessionsStay(m: Media, keys: seq<Key>, titlesToo: bool, k: Key)
    requires MediaOk(m) && Drops(Lookup(m.elements), keys) <= MAX_RETIRED
    requires k in keys && k in Lookup(m.elements) && SessionKeyOf(Lookup(m.elements)[k].state).Some?
    ensures var e := Lookup(m.elements)[k];
      SessionWithin(e.frame, SessionKeyOf(e.state).value, Dropped(m, keys, titlesToo).retired, Drops(Lookup(m.elements), keys))
    decreases |keys|
  {
    var rest := keys[1..];
    assert keys == [keys[0]] + rest;
    if keys[0] !in Lookup(m.elements) {
      EndedSessionsStay(m, rest, titlesToo, k);
    } else {
      var e := Lookup(m.elements)[keys[0]];
      var after := Forgotten(Ended(m, e), keys[0], titlesToo);
      EndedOk(m, e);
      RemoveLookup(m.elements, keys[0]);
      if k == keys[0] {
        EndedIsFirst(m, e);
        DroppedWithin(after, rest, titlesToo, e.frame, SessionKeyOf(e.state).value, 1);
      } else {
        EndedSessionsStay(after, rest, titlesToo, k);
      }
    }
  }

  /** Reporting an element keeps a session it does not take up. */
  lemma StoredWithin(m: Media, frame: nat, s: Snapshot, f: nat, x: SessionKey, n: nat)
    requires SessionWithin(f, x, m.retired, n) && SessionKeyOf(s) != Some(x)
    requires n + Left(Lookup(m.elements), s) <= MAX_RETIRED
    ensures SessionWithin(f, x, Stored(m, frame, s).retired, n + Left(Lookup(m.elements), s))
  {
    var live, left := Lookup(m.elements), m;
    if s.key in live && SessionKeyOf(live[s.key].state) != SessionKeyOf(s) {
      left := Ended(m, live[s.key]);
      EndedWithin(m, live[s.key], f, x, n);
    }
    if SessionKeyOf(s).Some? {
      OthersWithin(left.retired, frame, SessionKeyOf(s).value, f, x, n + Left(live, s));
    }
  }

  lemma {:induction false} StoredAllWithin(m: Media, frame: nat, states: seq<Snapshot>, f: nat, x: SessionKey, n: nat)
    requires MediaOk(m) && SessionWithin(f, x, m.retired, n) && !TakenUp(states, 0, x)
    requires n + Endings(Lookup(m.elements), frame, states) <= MAX_RETIRED
    ensures SessionWithin(f, x, StoredAll(m, frame, states).retired, n + Endings(Lookup(m.elements), frame, states))
    decreases |states|
  {
    if states != [] {
      var s := states[0];
      assert SessionKeyOf(s) != Some(x);
      StoredWithin(m, frame, s, f, x, n);
      StoredElements(m, frame, s);
      if TakenUp(states[1..], 0, x) { TakenUpLater(states, 0, x); }
      StoredAllWithin(Stored(m, frame, s), frame, states[1..], f, x, n + Left(Lookup(m.elements), s));
    }
  }

  /** A session that an element leaves goes to the front of the archive. */
  lemma LeaverIsFirst(m: Media, frame: nat, s: Snapshot, f: nat, x: SessionKey)
    requires Leaves(Lookup(m.elements), s, f, x)
    ensures SessionWithin(f, x, Stored(m, frame, s).retired, 1) && Left(Lookup(m.elements), s) == 1
  {
    var e := Lookup(m.elements)[s.key];
    EndedIsFirst(m, e);
    if SessionKeyOf(s).Some? {
      OthersWithin(Ended(m, e).retired, frame, SessionKeyOf(s).value, f, x, 1);
    }
  }

  /** A session left by a reported element, and not taken up again, is in the archive afterwards. */
  lemma {:induction false} LeftSessionStays(m: Media, frame: nat, states: seq<Snapshot>, j: nat, f: nat, x: SessionKey)
    requires MediaOk(m) && LeftAt(Lookup(m.elements), frame, states, j, f, x) && !TakenUp(states, j, x)
    requires Endings(Lookup(m.elements), frame, states) <= MAX_RETIRED
    ensures SessionWithin(f, x, StoredAll(m, frame, states).retired, Endings(Lookup(m.elements), frame, states))
    decreases |states|
  {
    var live, s, rest := Lookup(m.elements), states[0], states[1..];
    StoredElements(m, frame, s);
    if j == 0 {
      assert states[..0] == [];
      LeaverIsFirst(m, frame, s, f, x);
      if TakenUp(rest, 0, x) { TakenUpLater(states, 0, x); }
      StoredAllWithin(Stored(m, frame, s), frame, rest, f, x, 1);
    } else {
      BeforeNext(live, frame, states, j);
      assert rest[j - 1] == states[j];
      if TakenUp(rest, j - 1, x) { TakenUpLater(states, j - 1, x); }
      LeftSessionStays(Stored(m, frame, s), frame, rest, j - 1, f, x);
    }
  }

  // ----- A whole message -----

  /** The session is among the n latest past ones, or the element still plays it. */
  ghost predicate Held(m: Media, k: Key, f: nat, x: SessionKey, n: nat) {
    SessionWithin(f, x, m.retired, n) || Plays(Lookup(m.elements), k, f, x)
  }

  predicate Plays(live: map<Key, Placed>, k: Key, f: nat, x: SessionKey) {
    k in live && live[k].frame == f && SessionKeyOf(live[k].state) == Some(x)
  }

  lemma WithinMore(f: nat, x: SessionKey, records: seq<Record>, n: nat, more: nat)
    requires SessionWithin(f, x, records, n) && n <= more
    ensures SessionWithin(f, x, records, more) && SessionIn(f, x, records)
  {
    var i :| 0 <= i < |records| && i < n && records[i].frame == f && records[i].session == x;
  }

  lemma DroppedHolds(m: Media, keys: seq<Key>, titlesToo: bool, k: Key, f: nat, x: SessionKey, n: nat)
    requires MediaOk(m) && Held(m, k, f, x, n) && n + Drops(Lookup(m.elements), keys) <= MAX_RETIRED
    ensures MediaOk(Dropped(m, keys, titlesToo))
    ensures Held(Dropped(m, keys, titlesToo), k, f, x, n + Drops(Lookup(m.elements), keys))
  {
    DroppedElements(m, keys, titlesToo);
    if SessionWithin(f, x, m.retired, n) {
      DroppedWithin(m, keys, titlesToo, f, x, n);
    } else if k in keys {
      EndedSessionsStay(m, keys, titlesToo, k);
      WithinMore(f, x, Dropped(m, keys, titlesToo).retired, Drops(Lookup(m.elements), keys), n + Drops(Lookup(m.elements), keys));
    } else {
      WithoutIs(Lookup(m.elements), keys);
    }
  }

  /** The element is reported for the first time at this place. */
  lemma {:induction false} FirstReport(states: seq<Snapshot>, k: Key) returns (j: nat)
    requires k in KeysIn(states)
    ensures j < |states| && states[j].key == k && k !in KeysIn(states[..j])
    decreases |states|
  {
    if states[0].key == k {
      j := 0;
    } else {
      assert states == [states[0]] + states[1..];
      var i := FirstReport(states[1..], k);
      j := i + 1;
      assert states[..j] == [states[0]] + states[1..][..i];
    }
  }

  /** Until it is reported an element stays as it was. */
  lemma BeforeReport(live: map<Key, Placed>, frame: nat, states: seq<Snapshot>, j: nat, k: Key)
    requires j <= |states| && k !in KeysIn(states[..j]) && k in live
    ensures k in Before(live, frame, states, j) && Before(live, frame, states, j)[k] == live[k]
  {
    AddAllKeys(live, frame, states[..j]);
  }

  lemma StoredAllHolds(m: Media, frame: nat, states: seq<Snapshot>, k: Key, f: nat, x: SessionKey, n: nat)
    requires MediaOk(m) && Held(m, k, f, x, n) && !TakenUp(states, 0, x)
    requires n + Endings(Lookup(m.elements), frame, states) <= MAX_RETIRED
    ensures Held(StoredAll(m, frame, states), k, f, x, n + Endings(Lookup(m.elements), frame, states))
  {
    var live := Lookup(m.elements);
    StoredAllElements(m, frame, states);
    AddAllKeys(live, frame, states);
    if SessionWithin(f, x, m.retired, n) {
      StoredAllWithin(m, frame, states, f, x, n);
    } else if k in KeysIn(states) {
      var j := FirstReport(states, k);
      BeforeReport(live, frame, states, j, k);
      NotTakenUp(states, j, x);
      LeftSessionStays(m, frame, states, j, f, x);
      WithinMore(f, x, StoredAll(m, frame, states).retired, Endings(live, frame, states), n + Endings(live, frame, states));
    }
  }

  lemma NotTakenUp(states: seq<Snapshot>, j: nat, x: SessionKey)
    requires !TakenUp(states, 0, x) && j < |states|
    ensures !TakenUp(states, j, x) && SessionKeyOf(states[j]) != Some(x)
  {
  }

  function Own(m: Media, known: bool, frame: nat, sid: string): Media {
    if known then m else Dropped(m, StaleKeys(m.elements, frame, sid), false)
  }

  function Unlisting(m: Media, frame: nat, sid: string, p: Payload): seq<Key> {
    if p.full then UnlistedKeys(m.elements, frame, sid, p.elements) else []
  }

  /** The sessions that a whole message ends: of a former sensor, of removed, of unlisted and of changed elements. */
  function MessageEndings(m: Media, known: bool, frame: nat, sid: string, p: Payload): nat {
    var own := Own(m, known, frame, sid);
    var rest := Dropped(own, p.removed, true);
    var pruned := Pruned(own, frame, sid, p);
    (if known then 0 else Drops(Lookup(m.elements), StaleKeys(m.elements, frame, sid))) +
    Drops(Lookup(own.elements), p.removed) + Drops(Lookup(rest.elements), Unlisting(rest, frame, sid, p)) +
    Endings(Lookup(pruned.elements), frame, p.elements)
  }

  /**
   * No session is lost: if a message ends no more than 12, each session that an element played before and
   * no longer plays afterwards, and that no reported element has taken up, is in the archive.
   */
  lemma NoSessionIsLost(m: Media, known: bool, frame: nat, sid: string, p: Payload, k: Key, f: nat, x: SessionKey)
    requires MediaOk(m) && Plays(Lookup(m.elements), k, f, x)
    requires MessageEndings(m, known, frame, sid, p) <= MAX_RETIRED && !TakenUp(p.elements, 0, x)
    ensures Plays(Received(Lookup(m.elements), known, frame, sid, p), k, f, x) ||
            SessionIn(f, x, Updated(m, known, frame, sid, p).retired)
  {
    var own, n := m, 0;
    if !known {
      n := Drops(Lookup(m.elements), StaleKeys(m.elements, frame, sid));
      own := Own(m, known, frame, sid);
      DroppedHolds(m, StaleKeys(m.elements, frame, sid), false, k, f, x, 0);
    }
    var rest := Dropped(own, p.removed, true);
    DroppedHolds(own, p.removed, true, k, f, x, n);
    n := n + Drops(Lookup(own.elements), p.removed);
    DroppedHolds(rest, Unlisting(rest, frame, sid, p), true, k, f, x, n);
    n := n + Drops(Lookup(rest.elements), Unlisting(rest, frame, sid, p));
    var pruned := Pruned(own, frame, sid, p);
    assert pruned == Dropped(rest, Unlisting(rest, frame, sid, p), true);
    StoredAllHolds(pruned, frame, p.elements, k, f, x, n);
    n := n + Endings(Lookup(pruned.elements), frame, p.elements);
    var after := Updated(m, known, frame, sid, p);
    assert after == StoredAll(pruned, frame, p.elements);
    UpdatedElements(m, known, frame, sid, p);
    if SessionWithin(f, x, after.retired, n) { WithinMore(f, x, after.retired, n, n); }
  }

  // ----- Titles -----

  ghost predicate UnderOwnKeys(live: map<Key, Placed>) {
    forall k :: k in live ==> live[k].state.key == k
  }

  ghost predicate SameTitle(a: map<Key, PlayTitle>, b: map<Key, PlayTitle>, k: Key) {
    (k in a <==> k in b) && (k in a ==> a[k] == b[k])
  }

  /** The title remembered for the element's session, or else its own. */
  function TitleFor(titles: map<Key, PlayTitle>, k: Key, x: SessionKey, own: string): string {
    if k in titles && titles[k].session == x && titles[k].title != "" then titles[k].title else own
  }

  /** What the archive keeps of an element that has left session x. */
  function RecordOf(e: Placed, x: SessionKey, title: string): Record {
    Record(e.frame, x, e.state.(playing := false, visible := 0, title := title))
  }

  ghost predicate RecordWithin(r: Record, records: seq<Record>, n: nat) {
    exists i :: 0 <= i < |records| && i < n && records[i] == r
  }

  lemma {:induction false} OthersKeep(records: seq<Record>, frame: nat, session: SessionKey, r: Record, n: nat)
    requires RecordWithin(r, records, n) && (r.frame != frame || r.session != session)
    ensures RecordWithin(r, Others(records, frame, session), n)
  {
    var i :| 0 <= i < |records| && i < n && records[i] == r;
    var rest := Others(records[1..], frame, session);
    if i == 0 {
      assert Others(records, frame, session)[0] == records[0];
    } else {
      assert records[1..][i - 1] == records[i];
      OthersKeep(records[1..], frame, session, r, n - 1);
      var j :| 0 <= j < |rest| && j < n - 1 && rest[j] == r;
      var all := Others(records, frame, session);
      assert all == rest || all[j + 1] == rest[j];
    }
  }

  lemma EndedKeeps(m: Media, e: Placed, r: Record, n: nat)
    requires RecordWithin(r, m.retired, n) && n + Ending(e) <= MAX_RETIRED
    requires r.frame != e.frame || Some(r.session) != SessionKeyOf(e.state)
    ensures RecordWithin(r, Ended(m, e).retired, n + Ending(e))
  {
    var session, after := SessionKeyOf(e.state), Ended(m, e).retired;
    if session.Some? {
      OthersKeep(m.retired, e.frame, session.value, r, n);
      var rest := Others(m.retired, e.frame, session.value);
      var i :| 0 <= i < |rest| && i < n && rest[i] == r;
      assert after[i + 1] == rest[i];
    }
  }

  lemma StoredKeeps(m: Media, frame: nat, s: Snapshot, r: Record, n: nat)
    requires RecordWithin(r, m.retired, n) && n + Left(Lookup(m.elements), s) <= MAX_RETIRED
    requires SessionKeyOf(s) != Some(r.session) && !Leaves(Lookup(m.elements), s, r.frame, r.session)
    ensures RecordWithin(r, Stored(m, frame, s).retired, n + Left(Lookup(m.elements), s))
  {
    var live, left := Lookup(m.elements), m;
    if s.key in live && SessionKeyOf(live[s.key].state) != SessionKeyOf(s) {
      left := Ended(m, live[s.key]);
      EndedKeeps(m, live[s.key], r, n);
    }
    if SessionKeyOf(s).Some? {
      OthersKeep(left.retired, frame, SessionKeyOf(s).value, r, n + Left(live, s));
    }
  }

  /** From the j-th report on nobody leaves session x of frame f. */
  ghost predicate LeftLater(live: map<Key, Placed>, frame: nat, states: seq<Snapshot>, j: nat, f: nat, x: SessionKey) {
    exists i: nat :: j <= i && LeftAt(live, frame, states, i, f, x)
  }

  lemma LeftLaterNext(live: map<Key, Placed>, frame: nat, states: seq<Snapshot>, j: nat, f: nat, x: SessionKey)
    requires states != []
    requires LeftLater(live[states[0].key := Placed(frame, states[0])], frame, states[1..], j, f, x)
    ensures LeftLater(live, frame, states, j, f, x)
  {
    var next := live[states[0].key := Placed(frame, states[0])];
    var i: nat :| j <= i && LeftAt(next, frame, states[1..], i, f, x);
    BeforeNext(live, frame, states, i + 1);
    assert LeftAt(live, frame, states, i + 1, f, x);
  }

  lemma LeftNow(live: map<Key, Placed>, frame: nat, states: seq<Snapshot>, f: nat, x: SessionKey)
    requires states != [] && Leaves(live, states[0], f, x)
    ensures LeftLater(live, frame, states, 0, f, x)
  {
    assert states[..0] == [];
    assert LeftAt(live, frame, states, 0, f, x);
  }

  lemma {:induction false} StoredAllKeeps(m: Media, frame: nat, states: seq<Snapshot>, r: Record, n: nat)
    requires MediaOk(m) && RecordWithin(r, m.retired, n) && !TakenUp(states, 0, r.session)
    requires !LeftLater(Lookup(m.elements), frame, states, 0, r.frame, r.session)
    requires n + Endings(Lookup(m.elements), frame, states) <= MAX_RETIRED
    ensures r in StoredAll(m, frame, states).retired
    decreases |states|
  {
    if states == [] {
      var i :| 0 <= i < |m.retired| && i < n && m.retired[i] == r;
    } else {
      var s, live := states[0], Lookup(m.elements);
      if Leaves(live, s, r.frame, r.session) { LeftNow(live, frame, states, r.frame, r.session); }
      if LeftLater(live[s.key := Placed(frame, s)], frame, states[1..], 0, r.frame, r.session) {
        LeftLaterNext(live, frame, states, 0, r.frame, r.session);
      }
      NotTakenUp(states, 0, r.session);
      StoredKeeps(m, frame, s, r, n);
      StoredElements(m, frame, s);
      if TakenUp(states[1..], 0, r.session) { TakenUpLater(states, 0, r.session); }
      StoredAllKeeps(Stored(m, frame, s), frame, states[1..], r, n + Left(live, s));
    }
  }

  /** A changed element leaves its session under the title it played it with. */
  lemma LeaverRecord(m: Media, frame: nat, s: Snapshot, x: SessionKey)
    requires UnderOwnKeys(Lookup(m.elements)) && s.key in Lookup(m.elements)
    requires SessionKeyOf(Lookup(m.elements)[s.key].state) == Some(x) && SessionKeyOf(s) != Some(x)
    ensures var e := Lookup(m.elements)[s.key];
      RecordWithin(RecordOf(e, x, TitleFor(m.titles, s.key, x, e.state.title)), Stored(m, frame, s).retired, 1)
  {
    var e := Lookup(m.elements)[s.key];
    var r := RecordOf(e, x, TitleFor(m.titles, s.key, x, e.state.title));
    assert Ended(m, e).retired[0] == r;
    assert RecordWithin(r, Ended(m, e).retired, 1);
    if SessionKeyOf(s).Some? {
      OthersKeep(Ended(m, e).retired, frame, SessionKeyOf(s).value, r, 1);
    }
  }

  lemma StoredTitles(m: Media, frame: nat, s: Snapshot, k: Key)
    requires UnderOwnKeys(Lookup(m.elements)) && k != s.key
    ensures SameTitle(m.titles, Stored(m, frame, s).titles, k)
  {
  }

  lemma {:induction false} StoredAllTitles(m: Media, frame: nat, states: seq<Snapshot>, k: Key)
    requires MediaOk(m) && UnderOwnKeys(Lookup(m.elements)) && k !in KeysIn(states)
    ensures SameTitle(m.titles, StoredAll(m, frame, states).titles, k)
    decreases |states|
  {
    if states != [] {
      assert states[0].key in KeysIn(states);
      assert KeysIn(states[1..]) <= KeysIn(states);
      StoredTitles(m, frame, states[0], k);
      StoredElements(m, frame, states[0]);
      StoredAllTitles(Stored(m, frame, states[0]), frame, states[1..], k);
    }
  }

  lemma {:induction false} DroppedTitles(m: Media, keys: seq<Key>, titlesToo: bool, k: Key)
    requires MediaOk(m) && UnderOwnKeys(Lookup(m.elements)) && k in Without(Lookup(m.elements), keys)
    ensures SameTitle(m.titles, Dropped(m, keys, titlesToo).titles, k)
    decreases |keys|
  {
    if keys != [] {
      WithoutIs(Lookup(m.elements), keys);
      assert keys[0] in keys;
      if keys[0] !in Lookup(m.elements) {
        assert Lookup(m.elements) - {keys[0]} == Lookup(m.elements);
        DroppedTitles(m, keys[1..], titlesToo, k);
      } else {
        var e := Lookup(m.elements)[keys[0]];
        EndedOk(m, e);
        RemoveLookup(m.elements, keys[0]);
        DroppedTitles(Forgotten(Ended(m, e), keys[0], titlesToo), keys[1..], titlesToo, k);
      }
    }
  }

  /** Storing from the j-th report on. */
  lemma {:induction false} StoredSplit(m: Media, frame: nat, states: seq<Snapshot>, j: nat)
    requires MediaOk(m) && j <= |states|
    ensures var early := StoredAll(m, frame, states[..j]);
      MediaOk(early) && Lookup(early.elements) == Before(Lookup(m.elements), frame, states, j) &&
      StoredAll(m, frame, states) == StoredAll(early, frame, states[j..])
    decreases |states|
  {
    StoredAllElements(m, frame, states[..j]);
    if j == 0 {
      assert states[..0] == [] && states[0..] == states;
    } else {
      StoredElements(m, frame, states[0]);
      StoredSplit(Stored(m, frame, states[0]), frame, states[1..], j - 1);
      assert states[..j][1..] == states[1..][..j - 1] && states[..j][0] == states[0] && states[1..][j - 1..] == states[j..];
    }
  }

  lemma {:induction false} AddAllConcat(live: map<Key, Placed>, frame: nat, a: seq<Snapshot>, b: seq<Snapshot>)
    ensures AddAll(live, frame, a + b) == AddAll(AddAll(live, frame, a), frame, b)
    decreases |a|
  {
    if a == [] {
      assert a + b == b;
    } else {
      assert (a + b)[1..] == a[1..] + b;
      AddAllConcat(live[a[0].key := Placed(frame, a[0])], frame, a[1..], b);
    }
  }

  lemma Spliced(states: seq<Snapshot>, j: nat, i: nat)
    requires j + i <= |states|
    ensures states[..j] + states[j..][..i] == states[..j + i]
  {
    assert states[j..][..i] == states[j..j + i];
  }

  /** Leaving a session is the same seen from the j-th report on. */
  lemma LeftAtSplit(live: map<Key, Placed>, frame: nat, states: seq<Snapshot>, j: nat, i: nat, f: nat, x: SessionKey)
    requires j <= |states|
    ensures LeftAt(Before(live, frame, states, j), frame, states[j..], i, f, x) <==> LeftAt(live, frame, states, j + i, f, x)
  {
    if j + i < |states| {
      AddAllConcat(live, frame, states[..j], states[j..][..i]);
      Spliced(states, j, i);
    }
  }

  lemma LeftLaterSplit(live: map<Key, Placed>, frame: nat, states: seq<Snapshot>, j: nat, f: nat, x: SessionKey)
    requires j <= |states|
    ensures LeftLater(Before(live, frame, states, j), frame, states[j..], 0, f, x) <==> LeftLater(live, frame, states, j, f, x)
  {
    if LeftLater(Before(live, frame, states, j), frame, states[j..], 0, f, x) {
      var i: nat :| LeftAt(Before(live, frame, states, j), frame, states[j..], i, f, x);
      LeftAtSplit(live, frame, states, j, i, f, x);
      assert LeftAt(live, frame, states, j + i, f, x);
    }
    if LeftLater(live, frame, states, j, f, x) {
      var i: nat :| j <= i && LeftAt(live, frame, states, i, f, x);
      LeftAtSplit(live, frame, states, j, i - j, f, x);
    }
  }

  /** The elements that a message leaves before it adds its own. */
  function Base(m: Media, known: bool, frame: nat, sid: string, p: Payload): map<Key, Placed> {
    Remaining(if known then Lookup(m.elements) else Adopted(Lookup(m.elements), frame, sid), frame, sid, p)
  }

  lemma PrunedTitles(m: Media, known: bool, frame: nat, sid: string, p: Payload, k: Key)
    requires MediaOk(m) && UnderOwnKeys(Lookup(m.elements)) && k in Base(m, known, frame, sid, p)
    ensures var pruned := Pruned(Own(m, known, frame, sid), frame, sid, p);
      MediaOk(pruned) && Lookup(pruned.elements) == Base(m, known, frame, sid, p) &&
      SameTitle(m.titles, pruned.titles, k) && Base(m, known, frame, sid, p)[k] == Lookup(m.elements)[k]
  {
    var own := Own(m, known, frame, sid);
    StaleElements(m, frame, sid);
    if !known {
      DroppedElements(m, StaleKeys(m.elements, frame, sid), false);
      DroppedTitles(m, StaleKeys(m.elements, frame, sid), false, k);
    }
    PrunedElements(own, frame, sid, p);
    DroppedElements(own, p.removed, true);
    WithoutIs(Lookup(own.elements), p.removed);
    DroppedTitles(own, p.removed, true, k);
    if p.full {
      var rest := Dropped(own, p.removed, true);
      DroppedElements(rest, UnlistedKeys(rest.elements, frame, sid, p.elements), true);
      DroppedTitles(rest, UnlistedKeys(rest.elements, frame, sid, p.elements), true, k);
    }
  }

  /** A report in the middle of the others. */
  lemma StoredAround(m: Media, frame: nat, states: seq<Snapshot>, j: nat)
    requires MediaOk(m) && j < |states|
    ensures var early := StoredAll(m, frame, states[..j]); var mid := Stored(early, frame, states[j]);
      MediaOk(early) && Lookup(early.elements) == Before(Lookup(m.elements), frame, states, j) &&
      MediaOk(mid) && Lookup(mid.elements) == Before(Lookup(m.elements), frame, states, j + 1) &&
      StoredAll(m, frame, states) == StoredAll(mid, frame, states[j + 1..])
  {
    var early := StoredAll(m, frame, states[..j]);
    StoredSplit(m, frame, states, j);
    StoredElements(early, frame, states[j]);
    AddAllConcat(Lookup(m.elements), frame, states[..j], [states[j]]);
    assert states[..j] + [states[j]] == states[..j + 1] && [states[j]][1..] == [];
    assert states[j..][0] == states[j] && states[j..][1..] == states[j + 1..];
  }

  lemma {:induction false} OwnKeysStay(live: map<Key, Placed>, frame: nat, states: seq<Snapshot>)
    requires UnderOwnKeys(live)
    ensures UnderOwnKeys(AddAll(live, frame, states))
    decreases |states|
  {
    if states != [] {
      OwnKeysStay(live[states[0].key := Placed(frame, states[0])], frame, states[1..]);
    }
  }

  /**
   * A session that an element leaves by a message is archived as the element was, stopped and out of sight,
   * under the title remembered for it or else the element's own; unless another element takes the session
   * up or leaves it later, or 12 more sessions end.
   */
  lemma LeftUnderItsTitle(m: Media, known: bool, frame: nat, sid: string, p: Payload, j: nat, x: SessionKey)
    requires MediaOk(m) && UnderOwnKeys(Lookup(m.elements)) && j < |p.elements|
    requires p.elements[j].key in Base(m, known, frame, sid, p) && p.elements[j].key !in KeysIn(p.elements[..j])
    requires SessionKeyOf(Lookup(m.elements)[p.elements[j].key].state) == Some(x)
    requires !LeftLater(Base(m, known, frame, sid, p), frame, p.elements, j + 1, Lookup(m.elements)[p.elements[j].key].frame, x)
    requires !TakenUp(p.elements, j, x)
    requires Endings(Before(Base(m, known, frame, sid, p), frame, p.elements, j + 1), frame, p.elements[j + 1..]) < MAX_RETIRED
    ensures var e := Lookup(m.elements)[p.elements[j].key];
      RecordOf(e, x, TitleFor(m.titles, p.elements[j].key, x, e.state.title)) in Updated(m, known, frame, sid, p).retired
  {
    var k, states, base := p.elements[j].key, p.elements, Base(m, known, frame, sid, p);
    var pruned := Pruned(Own(m, known, frame, sid), frame, sid, p);
    PrunedTitles(m, known, frame, sid, p, k);
    StoredAround(pruned, frame, states, j);
    var early := StoredAll(pruned, frame, states[..j]);
    StoredAllTitles(pruned, frame, states[..j], k);
    OwnKeysStay(base, frame, states[..j]);
    BeforeReport(base, frame, states, j, k);
    assert SessionKeyOf(states[j]) != Some(x);
    LeaverRecord(early, frame, states[j], x);
    LeftLaterSplit(base, frame, states, j + 1, base[k].frame, x);
    TakenUpAfter(states, j, x);
    StoredAllKeeps(Stored(early, frame, states[j]), frame, states[j + 1..],
                   RecordOf(base[k], x, TitleFor(m.titles, k, x, base[k].state.title)), 1);
  }

  /**
   * The title remembered for an element reported once: what it says while it plays; otherwise, as long as
   * its session stays the same, what was remembered before.
   */
  lemma TitleRemembered(m: Media, known: bool, frame: nat, sid: string, p: Payload, j: nat)
    requires MediaOk(m) && UnderOwnKeys(Lookup(m.elements)) && j < |p.elements|
    requires p.elements[j].key in Base(m, known, frame, sid, p)
    requires p.elements[j].key !in KeysIn(p.elements[..j]) && p.elements[j].key !in KeysIn(p.elements[j + 1..])
    ensures var s := p.elements[j]; var titles := Updated(m, known, frame, sid, p).titles;
      if SessionKeyOf(s).Some? && s.playing && s.title != "" then
        s.key in titles && titles[s.key] == PlayTitle(SessionKeyOf(s).value, s.title)
      else SessionKeyOf(Lookup(m.elements)[s.key].state) == SessionKeyOf(s) ==> SameTitle(m.titles, titles, s.key)
  {
    var k, states, base := p.elements[j].key, p.elements, Base(m, known, frame, sid, p);
    var pruned := Pruned(Own(m, known, frame, sid), frame, sid, p);
    PrunedTitles(m, known, frame, sid, p, k);
    StoredAround(pruned, frame, states, j);
    var early := StoredAll(pruned, frame, states[..j]);
    StoredAllTitles(pruned, frame, states[..j], k);
    BeforeReport(base, frame, states, j, k);
    OwnKeysStay(base, frame, states[..j + 1]);
    StoredAllTitles(Stored(early, frame, states[j]), frame, states[j + 1..], k);
  }

  // ----- What plays is not past -----

  lemma OthersNotIn(records: seq<Record>, frame: nat, session: SessionKey, f: nat, x: SessionKey)
    requires !SessionIn(f, x, records) && DistinctSessions(records)
    ensures !SessionIn(f, x, Others(records, frame, session))
  {
    OthersDistinct(records, frame, session);
    var r := Others(records, frame, session);
    forall i | 0 <= i < |r| ensures r[i].frame != f || r[i].session != x {
      assert r[i] in records;
    }
  }

  lemma StoredNotIn(m: Media, frame: nat, s: Snapshot, f: nat, x: SessionKey)
    requires MediaOk(m) && !SessionIn(f, x, m.retired) && !Leaves(Lookup(m.elements), s, f, x)
    ensures SessionKeyOf(s) != Some(x) ==> !SessionIn(f, x, Stored(m, frame, s).retired)
  {
    var live, left := Lookup(m.elements), m;
    if SessionKeyOf(s) != Some(x) {
      if s.key in live && SessionKeyOf(live[s.key].state) != SessionKeyOf(s) {
        var e := live[s.key];
        left := Ended(m, e);
        EndedOk(m, e);
        if SessionKeyOf(e.state).Some? { OthersNotIn(m.retired, e.frame, SessionKeyOf(e.state).value, f, x); }
        assert !SessionIn(f, x, left.retired);
      }
      if SessionKeyOf(s).Some? { OthersNotIn(left.retired, frame, SessionKeyOf(s).value, f, x); }
    }
  }

  lemma {:induction false} StoredAllNotIn(m: Media, frame: nat, states: seq<Snapshot>, f: nat, x: SessionKey)
    requires MediaOk(m) && !SessionIn(f, x, m.retired) && !TakenUp(states, 0, x)
    requires !LeftLater(Lookup(m.elements), frame, states, 0, f, x)
    ensures !SessionIn(f, x, StoredAll(m, frame, states).retired)
    decreases |states|
  {
    if states != [] {
      var s, live := states[0], Lookup(m.elements);
      if Leaves(live, s, f, x) { LeftNow(live, frame, states, f, x); }
      if LeftLater(live[s.key := Placed(frame, s)], frame, states[1..], 0, f, x) { LeftLaterNext(live, frame, states, 0, f, x); }
      NotTakenUp(states, 0, x);
      StoredNotIn(m, frame, s, f, x);
      StoredElements(m, frame, s);
      if TakenUp(states[1..], 0, x) { TakenUpLater(states, 0, x); }
      StoredAllNotIn(Stored(m, frame, s), frame, states[1..], f, x);
    }
  }

  /** The session of a reported element counts as past exactly when another element leaves it later in the message. */
  lemma PastExactly(m: Media, known: bool, frame: nat, sid: string, p: Payload, j: nat, x: SessionKey)
    requires MediaOk(m) && j < |p.elements| && SessionKeyOf(p.elements[j]) == Some(x) && !TakenUp(p.elements, j + 1, x)
    requires Endings(Before(Base(m, known, frame, sid, p), frame, p.elements, j + 1), frame, p.elements[j + 1..]) <= MAX_RETIRED
    ensures SessionIn(frame, x, Updated(m, known, frame, sid, p).retired) <==>
            LeftLater(Base(m, known, frame, sid, p), frame, p.elements, j + 1, frame, x)
  {
    var states, base := p.elements, Base(m, known, frame, sid, p);
    var pruned := Pruned(Own(m, known, frame, sid), frame, sid, p);
    StaleElements(m, frame, sid);
    PrunedElements(Own(m, known, frame, sid), frame, sid, p);
    StoredAround(pruned, frame, states, j);
    var mid, later := Stored(StoredAll(pruned, frame, states[..j]), frame, states[j]), states[j + 1..];
    LeftLaterSplit(base, frame, states, j + 1, frame, x);
    TakenUpAfter(states, j, x);
    assert !SessionIn(frame, x, mid.retired);
    if LeftLater(base, frame, states, j + 1, frame, x) {
      var i: nat :| LeftAt(Lookup(mid.elements), frame, later, i, frame, x);
      NotTakenUp(later, i, x);
      LeftSessionStays(mid, frame, later, i, frame, x);
      WithinMore(frame, x, StoredAll(mid, frame, later).retired, Endings(Lookup(mid.elements), frame, later), MAX_RETIRED);
    } else {
      StoredAllNotIn(mid, frame, later, frame, x);
    }
  }

  lemma TakenUpAfter(states: seq<Snapshot>, j: nat, x: SessionKey)
    requires !TakenUp(states, j + 1, x) && j < |states|
    ensures !TakenUp(states[j + 1..], 0, x)
  {
    var later := states[j + 1..];
    forall i | 0 <= i < |later| ensures SessionKeyOf(later[i]) != Some(x) {
      assert later[i] == states[j + 1 + i];
    }
  }

  function Plain(k: Key, src: string): Snapshot {
    Snapshot(k, src, None, None, false, true, "", 0, "")
  }

  /** A message after which an element plays a session that counts as past: another one has left it later on. */
  lemma PlayingYetPast(a: Key, b: Key, sid: string)
    requires a != b
    ensures var m := Media([Slot(b, Placed(0, Plain(b, "u")))], [], map[]);
      var p := Payload([Plain(a, "u"), Plain(b, "v")], [], false);
      Plays(Received(Lookup(m.elements), true, 0, sid, p), a, 0, Direct("u")) &&
      SessionIn(0, Direct("u"), Updated(m, true, 0, sid, p).retired)
  {
    var m := Media([Slot(b, Placed(0, Plain(b, "u")))], [], map[]);
    var states := [Plain(a, "u"), Plain(b, "v")];
    var p, base := Payload(states, [], false), Lookup(m.elements);
    assert m.elements[1..] == [];
    assert Remaining(base, 0, sid, p) == base;
    var both := base[a := Placed(0, Plain(a, "u"))];
    assert states[..1][1..] == [] && states[1..] == [Plain(b, "v")] && states[1..][1..] == [];
    assert Before(base, 0, states, 1) == AddAll(both, 0, states[..1][1..]) == both;
    assert LeftAt(base, 0, states, 1, 0, Direct("u"));
    assert Endings(both, 0, states[1..]) == 1 + Endings(both[b := Placed(0, Plain(b, "v"))], 0, states[1..][1..]) == 1;
    assert AddAll(base, 0, states) == AddAll(both, 0, states[1..]) == both[b := Placed(0, Plain(b, "v"))] by {
      assert AddAll(both, 0, states[1..]) == AddAll(both[b := Placed(0, Plain(b, "v"))], 0, states[1..][1..]);
    }
    LeftSessionStays(m, 0, states, 1, 0, Direct("u"));
    WithinMore(0, Direct("u"), StoredAll(m, 0, states).retired, Endings(base, 0, states), MAX_RETIRED);
  }
}
