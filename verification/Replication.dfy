/**
 * Element states on their way from one sensor (fluxDown/page/media-tracker.ts) to the tab state of
 * the background: messages in order, none lost, answers that may ask for a full snapshot.
 */
module Replication {
  import opened Options
  import opened TabState

  type Elements = map<Key, Placed>

  /** What the sensor puts on the channel; `clears` is the background's verdict on an address change. */
  datatype Message = State(payload: Payload) | Register | Navigated(clears: bool)

  /** A tracked element and the snapshot last sent of it. */
  datatype Item = Item(lastSent: Option<Snapshot>)

  /** The elements that belong to one sensor. */
  function Mine(live: Elements, frame: nat, sid: string): Elements {
    map k | k in live && live[k].frame == frame && k.sid == sid :: live[k]
  }

  lemma MineIsMine(live: Elements, frame: nat, sid: string)
    ensures AllMine(Mine(live, frame, sid), frame, sid)
  {
  }

  /** A sensor's elements once everything under way has arrived. */
  function Drained(b: Elements, channel: seq<Message>, frame: nat, sid: string): Elements
    decreases |channel|
  {
    if channel == [] then b
    else Drained(Step(b, channel[0], frame, sid), channel[1..], frame, sid)
  }

  function Step(b: Elements, m: Message, frame: nat, sid: string): Elements {
    match m
    case State(p) => Received(b, true, frame, sid, p)
    case Register => b
    case Navigated(clears) => if clears then map[] else b
  }

  lemma {:induction false} DrainedSnoc(b: Elements, channel: seq<Message>, m: Message, frame: nat, sid: string)
    ensures Drained(b, channel + [m], frame, sid) == Step(Drained(b, channel, frame, sid), m, frame, sid)
    decreases |channel|
  {
    if channel == [] {
      assert (channel + [m])[1..] == [];
    } else {
      assert (channel + [m])[1..] == channel[1..] + [m];
      DrainedSnoc(Step(b, channel[0], frame, sid), channel[1..], m, frame, sid);
    }
  }

  predicate IsFull(m: Message) {
    m.State? && m.payload.full
  }

  predicate HasFull(channel: seq<Message>) {
    exists i :: 0 <= i < |channel| && IsFull(channel[i])
  }

  ghost predicate AllMine(b: Elements, frame: nat, sid: string) {
    forall k :: k in b ==> b[k].frame == frame && k.sid == sid
  }

  ghost predicate OwnMessages(channel: seq<Message>, sid: string) {
    forall i :: 0 <= i < |channel| && channel[i].State? ==> OwnKeys(sid, channel[i].payload.elements)
  }

  lemma StepMine(b: Elements, m: Message, frame: nat, sid: string)
    requires AllMine(b, frame, sid) && (m.State? ==> OwnKeys(sid, m.payload.elements))
    ensures AllMine(Step(b, m, frame, sid), frame, sid)
  {
    if m.State? {
      AddAllKeys(Remaining(b, frame, sid, m.payload), frame, m.payload.elements);
    }
  }

  /** A full snapshot makes up for whatever the background held before. */
  lemma FullForgets(a: Elements, b: Elements, m: Message, frame: nat, sid: string)
    requires AllMine(a, frame, sid) && AllMine(b, frame, sid) && IsFull(m)
    ensures Step(a, m, frame, sid) == Step(b, m, frame, sid)
  {
    var p := m.payload;
    var ra, rb := Remaining(a, frame, sid, p), Remaining(b, frame, sid, p);
    AddAllForgets(ra, rb, frame, p.elements);
    assert ra.Keys <= KeysIn(p.elements) && rb.Keys <= KeysIn(p.elements);
  }

  lemma {:induction false} AddAllForgets(a: Elements, b: Elements, frame: nat, elements: seq<Snapshot>)
    requires forall k :: k in a || k in b ==> k in KeysIn(elements) || (k in a && k in b && a[k] == b[k])
    ensures AddAll(a, frame, elements) == AddAll(b, frame, elements)
    decreases |elements|
  {
    if elements == [] {
      assert a == b;
    } else {
      assert elements == [elements[0]] + elements[1..];
      var e := elements[0];
      AddAllForgets(a[e.key := Placed(frame, e)], b[e.key := Placed(frame, e)], frame, elements[1..]);
    }
  }

  lemma {:induction false} FullDrained(a: Elements, b: Elements, channel: seq<Message>, frame: nat, sid: string)
    requires AllMine(a, frame, sid) && AllMine(b, frame, sid) && OwnMessages(channel, sid) && HasFull(channel)
    ensures Drained(a, channel, frame, sid) == Drained(b, channel, frame, sid)
    decreases |channel|
  {
    var m := channel[0];
    if IsFull(m) {
      FullForgets(a, b, m, frame, sid);
    } else {
      var i :| 0 <= i < |channel| && IsFull(channel[i]);
      assert channel[1..][i - 1] == channel[i];
      StepMine(a, m, frame, sid);
      StepMine(b, m, frame, sid);
      assert OwnMessages(channel[1..], sid);
      FullDrained(Step(a, m, frame, sid), Step(b, m, frame, sid), channel[1..], frame, sid);
    }
  }

  lemma {:induction false} DrainedMonotone(a: Elements, b: Elements, channel: seq<Message>, frame: nat, sid: string)
    requires a.Keys <= b.Keys && AllMine(a, frame, sid) && AllMine(b, frame, sid) && OwnMessages(channel, sid)
    ensures Drained(a, channel, frame, sid).Keys <= Drained(b, channel, frame, sid).Keys
    decreases |channel|
  {
    if channel != [] {
      var m := channel[0];
      if m.State? {
        AddAllKeys(Remaining(a, frame, sid, m.payload), frame, m.payload.elements);
        AddAllKeys(Remaining(b, frame, sid, m.payload), frame, m.payload.elements);
      }
      StepMine(a, m, frame, sid);
      StepMine(b, m, frame, sid);
      assert OwnMessages(channel[1..], sid);
      DrainedMonotone(Step(a, m, frame, sid), Step(b, m, frame, sid), channel[1..], frame, sid);
    }
  }

  /** Seen from its sensor, a message does to the tab what it does to the sensor's own elements. */
  lemma MineReceived(live: Elements, sessions: map<nat, string>, frame: nat, sid: string, p: Payload)
    requires ElementsMatch(live, sessions) && OwnKeys(sid, p.elements)
    ensures Mine(Received(live, Known(sessions, frame, sid), frame, sid, p), frame, sid) ==
            Received(Mine(live, frame, sid), true, frame, sid, p)
  {
    var base := if Known(sessions, frame, sid) then live else Adopted(live, frame, sid);
    assert Mine(base, frame, sid) == Mine(live, frame, sid);
    MineAddAll(Remaining(base, frame, sid, p), frame, sid, p.elements);
    assert Mine(Remaining(base, frame, sid, p), frame, sid) == Remaining(Mine(live, frame, sid), frame, sid, p);
  }

  lemma {:induction false} MineAddAll(live: Elements, frame: nat, sid: string, elements: seq<Snapshot>)
    requires OwnKeys(sid, elements)
    ensures Mine(AddAll(live, frame, elements), frame, sid) == AddAll(Mine(live, frame, sid), frame, elements)
    decreases |elements|
  {
    if elements != [] {
      var e := elements[0];
      assert e.key.sid == sid;
      assert OwnKeys(sid, elements[1..]);
      MineAddAll(live[e.key := Placed(frame, e)], frame, sid, elements[1..]);
      assert Mine(live[e.key := Placed(frame, e)], frame, sid) == Mine(live, frame, sid)[e.key := Placed(frame, e)];
    }
  }

  /** Messages of other sensors, in other frames, do not touch a sensor's elements. */
  lemma OthersDoNotTouch(live: Elements, sessions: map<nat, string>, frame: nat, sid: string,
                         other: nat, otherSid: string, p: Payload)
    requires ElementsMatch(live, sessions) && other != frame && otherSid != sid && OwnKeys(otherSid, p.elements)
    requires forall i :: 0 <= i < |p.removed| ==> p.removed[i].sid == otherSid
    ensures Mine(Received(live, Known(sessions, other, otherSid), other, otherSid, p), frame, sid) == Mine(live, frame, sid)
  {
    var base := if Known(sessions, other, otherSid) then live else Adopted(live, other, otherSid);
    var kept := Remaining(base, other, otherSid, p);
    AddAllKeys(kept, other, p.elements);
    var after := AddAll(kept, other, p.elements);
    forall k ensures k in Mine(after, frame, sid) <==> k in Mine(live, frame, sid) {
      if k in KeysIn(p.elements) {
        assert k.sid == otherSid;
      }
    }
  }

  // ----- What is afloat -----

  /** The keys that messages under way carry, behind the last address change that clears the tab. */
  function Afloat(channel: seq<Message>): set<Key> {
    if channel == [] then {}
    else
      var front, m := channel[..|channel| - 1], channel[|channel| - 1];
      match m
      case State(p) => Afloat(front) + KeysIn(p.elements)
      case Register => Afloat(front)
      case Navigated(clears) => if clears then {} else Afloat(front)
  }

  /** Two states agree on a key. */
  ghost predicate SameAt(a: Elements, b: Elements, k: Key) {
    (k in a <==> k in b) && (k in a ==> a[k] == b[k])
  }

  lemma {:induction false} AddAllAt(a: Elements, b: Elements, frame: nat, elements: seq<Snapshot>, k: Key)
    requires k in KeysIn(elements) || SameAt(a, b, k)
    ensures SameAt(AddAll(a, frame, elements), AddAll(b, frame, elements), k)
    decreases |elements|
  {
    if elements != [] {
      var e := elements[0];
      assert elements == [e] + elements[1..];
      AddAllAt(a[e.key := Placed(frame, e)], b[e.key := Placed(frame, e)], frame, elements[1..], k);
    }
  }

  /** From an empty tab only keys afloat can arrive. */
  lemma {:induction false} OnlyAfloatArrives(channel: seq<Message>, frame: nat, sid: string)
    ensures Drained(map[], channel, frame, sid).Keys <= Afloat(channel)
    decreases |channel|
  {
    if channel != [] {
      var front, m := channel[..|channel| - 1], channel[|channel| - 1];
      assert channel == front + [m];
      OnlyAfloatArrives(front, frame, sid);
      DrainedSnoc(map[], front, m, frame, sid);
      if m.State? {
        AddAllKeys(Remaining(Drained(map[], front, frame, sid), frame, sid, m.payload), frame, m.payload.elements);
      }
    }
  }

  /** For a key afloat it does not matter what the tab held before. */
  lemma {:induction false} AfloatAlike(a: Elements, b: Elements, channel: seq<Message>, frame: nat, sid: string, k: Key)
    requires k in Afloat(channel)
    ensures SameAt(Drained(a, channel, frame, sid), Drained(b, channel, frame, sid), k)
    decreases |channel|
  {
    var front, m := channel[..|channel| - 1], channel[|channel| - 1];
    assert channel == front + [m];
    DrainedSnoc(a, front, m, frame, sid);
    DrainedSnoc(b, front, m, frame, sid);
    if k in Afloat(front) {
      AfloatAlike(a, b, front, frame, sid, k);
    }
    if m.State? {
      var ra := Remaining(Drained(a, front, frame, sid), frame, sid, m.payload);
      var rb := Remaining(Drained(b, front, frame, sid), frame, sid, m.payload);
      AddAllAt(ra, rb, frame, m.payload.elements, k);
    }
  }

  lemma {:induction false} AfloatShrinks(channel: seq<Message>)
    requires channel != []
    ensures Afloat(channel[1..]) <= Afloat(channel)
    decreases |channel|
  {
    if |channel| == 1 {
      assert channel[1..] == [];
    } else {
      var n := |channel| - 1;
      assert channel[1..][..n - 1] == channel[..n][1..] && channel[1..][n - 1] == channel[n];
      AfloatShrinks(channel[..n]);
    }
  }

  // ----- What sender and receiver owe each other -----

  type Items = map<Key, Item>

  /** The items of which something was sent. */
  function Sent(items: Items): set<Key> {
    set k | k in items && items[k].lastSent.Some?
  }

  /** The items that `d` does not hold as they were last sent. */
  function Missing(items: Items, d: Elements, frame: nat): set<Key> {
    set k | k in Sent(items) && !(k in d && d[k] == Placed(frame, items[k].lastSent.value))
  }

  /** Items never sent are queued, and no tracked item is reported as removed. */
  ghost predicate Queued(items: Items, dirty: set<Key>, removed: set<Key>, sid: string) {
    items.Keys - Sent(items) <= dirty && items.Keys !! removed && (forall k :: k in items.Keys + removed ==> k.sid == sid)
  }

  /** Whatever is afloat arrives as it was last sent, even in an empty tab. */
  ghost predicate AfloatOk(items: Items, channel: seq<Message>, frame: nat, sid: string) {
    Missing(items, Drained(map[], channel, frame, sid), frame) !! Afloat(channel)
  }

  /** If the tab is emptied now, exactly what was sent and is not afloat stays away. */
  lemma EmptiedMisses(items: Items, channel: seq<Message>, frame: nat, sid: string)
    requires AfloatOk(items, channel, frame, sid)
    ensures Missing(items, Drained(map[], channel, frame, sid), frame) == Sent(items) - Afloat(channel)
  {
    OnlyAfloatArrives(channel, frame, sid);
  }

  /** Taking the first message off the channel keeps the rest in order. */
  lemma AfloatAfterDelivery(items: Items, channel: seq<Message>, frame: nat, sid: string)
    requires channel != [] && AfloatOk(items, channel, frame, sid)
    ensures AfloatOk(items, channel[1..], frame, sid)
  {
    AfloatShrinks(channel);
    forall k | k in Afloat(channel[1..]) ensures k !in Missing(items, Drained(map[], channel[1..], frame, sid), frame) {
      AfloatAlike(map[], Step(map[], channel[0], frame, sid), channel[1..], frame, sid, k);
      assert k !in Missing(items, Drained(map[], channel, frame, sid), frame);
    }
  }

  /** The last-sent snapshots, as the background would place them. */
  function LastSent(items: Items, frame: nat): Elements {
    map k | k in items && items[k].lastSent.Some? :: Placed(frame, items[k].lastSent.value)
  }

  /** The keys that a flush looks at. */
  function Chosen(items: Items, dirty: set<Key>, full: bool): set<Key> {
    if full then items.Keys else items.Keys * dirty
  }

  /** The keys that a flush sends: every chosen item whose state is not the one last sent, or all on a full one. */
  function Outgoing(items: Items, dirty: set<Key>, full: bool, now: Key -> Snapshot): set<Key> {
    set k | k in Chosen(items, dirty, full) && (full || items[k].lastSent != Some(now(k)))
  }

  /** What a flush collects, and what it notes as sent. */
  ghost predicate Collected(before: Items, after: Items, dirty: set<Key>, full: bool, now: Key -> Snapshot, elements: seq<Snapshot>) {
    after.Keys == before.Keys &&
    (forall k :: k in after ==> after[k] == if k in Chosen(before, dirty, full) then Item(Some(now(k))) else before[k]) &&
    KeysIn(elements) == Outgoing(before, dirty, full, now) &&
    (forall i :: 0 <= i < |elements| ==> elements[i] == now(elements[i].key))
  }

  /** The message names exactly these keys as removed. */
  ghost predicate Reports(p: Payload, removed: set<Key>) {
    forall k :: k in p.removed <==> k in removed
  }

  ghost predicate NamesItself(now: Key -> Snapshot) {
    forall k: Key :: now(k).key == k
  }

  /** What a message does to the place of one tracked element. */
  lemma FlushAt(before: Items, after: Items, dirty: set<Key>, now: Key -> Snapshot, p: Payload,
                d: Elements, frame: nat, sid: string, k: Key)
    requires Collected(before, after, dirty, p.full, now, p.elements) && k in after && k !in p.removed
    ensures var e := Received(d, true, frame, sid, p);
      if k in KeysIn(p.elements) then after[k].lastSent == Some(now(k)) && k in e && e[k] == Placed(frame, now(k))
      else !p.full && after[k] == before[k] && SameAt(d, e, k)
  {
    AddAllKeys(Remaining(d, frame, sid, p), frame, p.elements);
  }

  /** After a flush exactly what it sends is no longer missing. */
  lemma FlushRepairs(before: Items, after: Items, dirty: set<Key>, removed: set<Key>, now: Key -> Snapshot, p: Payload,
                     d: Elements, frame: nat, sid: string)
    requires Queued(before, dirty, removed, sid) && Collected(before, after, dirty, p.full, now, p.elements)
    requires Reports(p, removed)
    ensures Missing(after, Received(d, true, frame, sid, p), frame) == Missing(before, d, frame) - KeysIn(p.elements)
  {
    var e := Received(d, true, frame, sid, p);
    forall k | k in after ensures k in Missing(after, e, frame) <==> k in Missing(before, d, frame) && k !in KeysIn(p.elements) {
      FlushAt(before, after, dirty, now, p, d, frame, sid, k);
    }
  }

  /** After a flush no untracked key stays behind. */
  lemma FlushForgets(before: Items, after: Items, dirty: set<Key>, removed: set<Key>, now: Key -> Snapshot, p: Payload,
                     d: Elements, frame: nat, sid: string)
    requires Collected(before, after, dirty, p.full, now, p.elements) && Reports(p, removed)
    requires d.Keys <= before.Keys + removed
    ensures Received(d, true, frame, sid, p).Keys <= after.Keys
  {
    AddAllKeys(Remaining(d, frame, sid, p), frame, p.elements);
  }

  lemma AllNoted(before: Items, after: Items, dirty: set<Key>, removed: set<Key>, now: Key -> Snapshot, p: Payload, sid: string)
    requires Queued(before, dirty, removed, sid) && Collected(before, after, dirty, p.full, now, p.elements)
    ensures Sent(after) == after.Keys && Queued(after, {}, {}, sid) && OwnKeys(sid, p.elements)
    ensures forall k :: k in Chosen(before, dirty, p.full) ==> after[k].lastSent == Some(now(k))
  {
    forall i | 0 <= i < |p.elements| ensures p.elements[i].key.sid == sid {
      assert p.elements[i].key in KeysIn(p.elements);
    }
  }

  /** A flush that finds nothing to send changes nothing. */
  lemma NothingToNote(before: Items, after: Items, dirty: set<Key>, now: Key -> Snapshot)
    requires Collected(before, after, dirty, false, now, [])
    ensures after == before
  {
    assert KeysIn([]) == {};
    forall k | k in after ensures after[k] == before[k] {
      assert k !in Outgoing(before, dirty, false, now);
    }
  }

  predicate WorthSending(p: Payload) {
    p.full || p.elements != [] || p.removed != []
  }

  /**
   * A flush notes as sent exactly what it puts on the channel: one message with everything collected and
   * everything removed, or none when that is nothing.
   */
  ghost predicate Flushed(before: Items, after: Items, dirty: set<Key>, removed: set<Key>, full: bool,
                          now: Key -> Snapshot, posted: seq<Message>) {
    exists p: Payload ::
      p.full == full && Collected(before, after, dirty, full, now, p.elements) &&
      Reports(p, removed) && posted == if WorthSending(p) then [State(p)] else []
  }

  /** Something is put on the channel exactly when something is removed, has changed or is asked for. */
  lemma FlushPosts(before: Items, after: Items, dirty: set<Key>, removed: set<Key>, full: bool,
                   now: Key -> Snapshot, posted: seq<Message>)
    requires Flushed(before, after, dirty, removed, full, now, posted)
    ensures posted != [] <==> full || removed != {} || Outgoing(before, dirty, false, now) != {}
    ensures posted != [] ==> |posted| == 1 && posted[0].State? && posted[0].payload.full == full
  {
    var p: Payload :| p.full == full && Collected(before, after, dirty, full, now, p.elements) &&
      Reports(p, removed) && posted == if WorthSending(p) then [State(p)] else [];
    if p.elements == [] {
      assert KeysIn(p.elements) == {};
    } else {
      assert p.elements[0].key in KeysIn(p.elements);
    }
    if p.removed != [] {
      assert p.removed[0] in p.removed;
    }
  }

  /** All items as if nothing had been sent of them. */
  function Unsent(items: Items): Items {
    map k | k in items :: Item(None)
  }

  lemma UnsentMissesNothing(items: Items, d: Elements, frame: nat)
    ensures Sent(Unsent(items)) == {} && Missing(Unsent(items), d, frame) == {}
  {
  }

  lemma MissingWithout(items: Items, k: Key, d: Elements, frame: nat)
    ensures Missing(items - {k}, d, frame) == Missing(items, d, frame) - {k}
    ensures k !in items ==> Missing(items[k := Item(None)], d, frame) == Missing(items, d, frame)
  {
  }

  /** One more message on the channel. */
  lemma SentOwn(channel: seq<Message>, m: Message, sid: string)
    requires OwnMessages(channel, sid) && (m.State? ==> OwnKeys(sid, m.payload.elements))
    ensures OwnMessages(channel + [m], sid)
    ensures HasFull(channel + [m]) <==> HasFull(channel) || IsFull(m)
  {
    if HasFull(channel) {
      var i :| 0 <= i < |channel| && IsFull(channel[i]);
      assert IsFull((channel + [m])[i]);
    }
    if IsFull(m) {
      assert IsFull((channel + [m])[|channel|]);
    }
  }

  lemma TakenOff(channel: seq<Message>, sid: string)
    requires OwnMessages(channel, sid) && channel != []
    ensures OwnMessages(channel[1..], sid)
    ensures HasFull(channel) <==> HasFull(channel[1..]) || IsFull(channel[0])
  {
    if HasFull(channel[1..]) {
      var i :| 0 <= i < |channel[1..]| && IsFull(channel[1..][i]);
      assert IsFull(channel[i + 1]);
    }
    if HasFull(channel) && !IsFull(channel[0]) {
      var i :| 0 <= i < |channel| && IsFull(channel[i]);
      assert IsFull(channel[1..][i - 1]);
    }
  }

  /** A tab that does not know the sensor holds nothing of it. */
  lemma UnknownHoldsNothing(live: Elements, sessions: map<nat, string>, frame: nat, sid: string)
    requires ElementsMatch(live, sessions) && !Known(sessions, frame, sid)
    ensures Mine(live, frame, sid) == map[]
  {
  }

  /** One sensor, its channel to the background, and the tab. */
  class Link {
    const frame: nat
    const sid: string
    /** The tracker. */
    var items: Items
    var dirty: set<Key>
    var removedKeys: set<Key>
    var fullPending: bool
    /** Messages and resync answers under way. */
    var channel: seq<Message>
    var resyncs: nat
    /** The tab's side. */
    var live: Elements
    var sessions: map<nat, string>
    /** Items that the tab has lost although it knows the sensor, and that have not been sent again. */
    ghost var hidden: set<Key>

    /** What the tab will hold of this sensor when everything under way has arrived. */
    ghost function Due(): Elements
      reads this`live, this`channel
    {
      Drained(Mine(live, frame, sid), channel, frame, sid)
    }

    /** The tab knows the sensor and no full snapshot is on its way to being asked for or sent. */
    ghost predicate Settled()
      reads this`sessions, this`resyncs, this`fullPending
    {
      Known(sessions, frame, sid) && resyncs == 0 && !fullPending
    }

    ghost predicate Ordered()
      reads this
    {
      OwnMessages(channel, sid) && ElementsMatch(live, sessions) && Queued(items, dirty, removedKeys, sid) &&
      Due().Keys <= items.Keys + removedKeys && AfloatOk(items, channel, frame, sid) &&
      (HasFull(channel) ==> Missing(items, Due(), frame) == {})
    }

    ghost predicate Valid()
      reads this
    {
      Ordered() &&
      (Settled() ==> hidden == Missing(items, Due(), frame)) &&
      (!Known(sessions, frame, sid) ==> hidden == {})
    }

    constructor (frame: nat, sid: string)
      ensures Valid() && items == map[] && channel == [] && live == map[] && sessions == map[] && hidden == {}
      ensures this.frame == frame && this.sid == sid
    {
      this.frame, this.sid := frame, sid;
      items, dirty, removedKeys, fullPending := map[], {}, {}, false;
      channel, resyncs, live, sessions, hidden := [], 0, map[], map[], {};
    }

    // ----- The tracker -----

    /** `adopt`: tracks an element, new or seen before. */
    method Adopt(k: Key)
      requires Valid() && k.sid == sid
      modifies this`items, this`dirty, this`removedKeys
      ensures Valid()
      ensures if k in old(items) then items == old(items) && dirty == old(dirty) && removedKeys == old(removedKeys)
              else items == old(items)[k := Item(None)] && dirty == old(dirty) + {k} && removedKeys == old(removedKeys) - {k}
    {
      if k in items { return; }
      MissingWithout(items, k, Due(), frame);
      MissingWithout(items, k, Drained(map[], channel, frame, sid), frame);
      items := items[k := Item(None)];
      removedKeys := removedKeys - {k};
      dirty := dirty + {k};
    }

    /** `release` of an element that left the document. */
    method Release(k: Key)
      requires Valid() && k in items
      modifies this`items, this`dirty, this`removedKeys, this`hidden
      ensures Valid() && items == old(items) - {k} && dirty == old(dirty) - {k} && removedKeys == old(removedKeys) + {k}
      ensures hidden == old(hidden) - {k}
    {
      MissingWithout(items, k, Due(), frame);
      MissingWithout(items, k, Drained(map[], channel, frame, sid), frame);
      items := items - {k};
      dirty := dirty - {k};
      removedKeys := removedKeys + {k};
      hidden := hidden - {k};
    }

    method MarkDirty(k: Key)
      requires Valid() && k in items
      modifies this`dirty
      ensures Valid() && dirty == old(dirty) + {k}
    {
      dirty := dirty + {k};
    }

    method ResendAll()
      requires Valid()
      modifies this`fullPending
      ensures Valid() && fullPending
    {
      fullPending := true;
    }

    /** The loop of `flush`. */
    method Collect(full: bool, now: Key -> Snapshot) returns (elements: seq<Snapshot>)
      requires NamesItself(now)
      modifies this`items
      ensures Collected(old(items), items, dirty, full, now, elements)
    {
      var chosen := Chosen(items, dirty, full);
      var todo := chosen;
      elements := [];
      while todo != {}
        invariant todo <= chosen && items.Keys == old(items).Keys
        invariant forall k :: k in items ==>
          items[k] == if k in chosen && k !in todo then Item(Some(now(k))) else old(items)[k]
        invariant KeysIn(elements) == Outgoing(old(items), dirty, full, now) - todo
        invariant forall i :: 0 <= i < |elements| ==> elements[i] == now(elements[i].key)
        decreases todo
      {
        var k :| k in todo;
        if full || items[k].lastSent != Some(now(k)) {
          assert KeysIn(elements + [now(k)]) == KeysIn(elements) + {k};
          elements := elements + [now(k)];
          items := items[k := Item(Some(now(k)))];
        }
        todo := todo - {k};
      }
    }

    /** What a flush would send, noted as sent. */
    method Gather(now: Key -> Snapshot) returns (p: Payload)
      requires NamesItself(now)
      modifies this`items
      ensures p.full == fullPending && Reports(p, removedKeys)
      ensures Collected(old(items), items, dirty, p.full, now, p.elements)
    {
      var elements := Collect(fullPending, now);
      var gone := Listed(removedKeys);
      p := Payload(elements, gone, fullPending);
    }

    /** Puts a message on the channel. */
    method Post(m: Message)
      requires OwnMessages(channel, sid) && (m.State? ==> OwnKeys(sid, m.payload.elements))
      modifies this`channel
      ensures channel == old(channel) + [m] && OwnMessages(channel, sid)
      ensures Due() == Step(old(Due()), m, frame, sid) && (HasFull(channel) <==> old(HasFull(channel)) || IsFull(m))
      ensures Drained(map[], channel, frame, sid) == Step(Drained(map[], old(channel), frame, sid), m, frame, sid)
    {
      DrainedSnoc(Mine(live, frame, sid), channel, m, frame, sid);
      DrainedSnoc(map[], channel, m, frame, sid);
      SentOwn(channel, m, sid);
      channel := channel + [m];
    }

    /** Sends a payload worth sending: it repairs what it carries, for the tab as it is and for an empty one. */
    method Send(p: Payload, ghost before: Items, now: Key -> Snapshot)
      requires OwnMessages(channel, sid) && Queued(before, dirty, removedKeys, sid)
      requires Collected(before, items, dirty, p.full, now, p.elements) && Reports(p, removedKeys)
      requires Due().Keys <= before.Keys + removedKeys && AfloatOk(before, channel, frame, sid)
      modifies this`channel
      ensures channel == old(channel) + (if WorthSending(p) then [State(p)] else [])
      ensures OwnMessages(channel, sid) && Due().Keys <= items.Keys && AfloatOk(items, channel, frame, sid)
      ensures Missing(items, Due(), frame) == old(Missing(before, Due(), frame)) - KeysIn(p.elements)
      ensures HasFull(channel) <==> old(HasFull(channel)) || p.full
    {
      if !WorthSending(p) {
        NothingToNote(before, items, dirty, now);
        assert removedKeys == {} && KeysIn(p.elements) == {};
        return;
      }
      AllNoted(before, items, dirty, removedKeys, now, p, sid);
      FlushRepairs(before, items, dirty, removedKeys, now, p, Due(), frame, sid);
      FlushRepairs(before, items, dirty, removedKeys, now, p, Drained(map[], channel, frame, sid), frame, sid);
      FlushForgets(before, items, dirty, removedKeys, now, p, Due(), frame, sid);
      assert (channel + [State(p)])[..|channel|] == channel;
      Post(State(p));
    }

    /** A full flush misses nothing. */
    lemma FullMissesNothing(p: Payload, before: Items, now: Key -> Snapshot)
      requires Collected(before, items, dirty, true, now, p.elements)
      ensures Missing(before, Due(), frame) - KeysIn(p.elements) == {}
    {
    }

    /** The part of `flush` that collects and sends. */
    method Dispatch(now: Key -> Snapshot)
      requires Ordered() && NamesItself(now)
      modifies this`items, this`channel
      ensures old(channel) <= channel && items.Keys == old(items).Keys
      ensures Flushed(old(items), items, dirty, removedKeys, fullPending, now, channel[|old(channel)|..])
      ensures OwnMessages(channel, sid) && Due().Keys <= items.Keys && AfloatOk(items, channel, frame, sid)
      ensures Sent(items) == items.Keys && Queued(items, {}, {}, sid)
      ensures forall k :: k in Chosen(old(items), dirty, fullPending) ==> items[k].lastSent == Some(now(k))
      ensures Missing(items, Due(), frame) ==
        if fullPending then {} else old(Missing(items, Due(), frame)) - Outgoing(old(items), dirty, false, now)
      ensures HasFull(channel) <==> old(HasFull(channel)) || fullPending
    {
      var p := Gather(now);
      AllNoted(old(items), items, dirty, removedKeys, now, p, sid);
      if p.full { FullMissesNothing(p, old(items), now); }
      Send(p, old(items), now);
    }

    /**
     * `flush`: sends what changed, or everything after a resync. Of the hidden losses exactly those that
     * it sends are repaired.
     */
    method Flush(now: Key -> Snapshot)
      requires Valid() && NamesItself(now)
      modifies this`items, this`dirty, this`removedKeys, this`fullPending, this`channel, this`hidden
      ensures Valid() && items.Keys == old(items).Keys && Sent(items) == items.Keys
      ensures dirty == {} && removedKeys == {} && !fullPending && old(channel) <= channel
      ensures Flushed(old(items), items, old(dirty), old(removedKeys), old(fullPending), now, channel[|old(channel)|..])
      ensures forall k :: k in Chosen(old(items), old(dirty), old(fullPending)) ==> items[k].lastSent == Some(now(k))
      ensures hidden == if old(fullPending) then {} else old(hidden) - Outgoing(old(items), old(dirty), false, now)
    {
      Dispatch(now);
      hidden := if fullPending then {} else hidden - Outgoing(old(items), dirty, false, now);
      dirty, removedKeys, fullPending := {}, {}, false;
    }

    /** `resetForNavigation`, and the address change that the sensor reports with it. */
    method ResetForNavigation(clears: bool)
      requires Valid()
      modifies this`items, this`dirty, this`channel, this`hidden
      ensures Valid() && items == Unsent(old(items)) && dirty == old(dirty) + items.Keys && hidden == {}
      ensures channel == old(channel) + [Navigated(clears)]
    {
      Post(Navigated(clears));
      UnsentMissesNothing(items, Due(), frame);
      UnsentMissesNothing(items, Drained(map[], channel, frame, sid), frame);
      items := Unsent(items);
      dirty := dirty + items.Keys;
      hidden := {};
    }

    /** A status or configuration message, which registers the sensor. */
    method SendStatus()
      requires Valid()
      modifies this`channel
      ensures Valid() && channel == old(channel) + [Register]
    {
      assert (channel + [Register])[..|channel|] == channel;
      Post(Register);
    }

    /** The resync answer reaches the sensor. */
    method HearResync()
      requires Valid() && resyncs > 0
      modifies this`fullPending, this`resyncs
      ensures Valid() && fullPending && resyncs == old(resyncs) - 1
    {
      resyncs := resyncs - 1;
      fullPending := true;
    }

    // ----- The tab -----

    /** Taking the next message off the channel once it has been carried out. */
    lemma CarriedOut(b: Elements)
      requires Ordered() && channel != [] && b == Step(Mine(live, frame, sid), channel[0], frame, sid)
      ensures Drained(b, channel[1..], frame, sid) == Due() && OwnMessages(channel[1..], sid)
      ensures HasFull(channel) <==> HasFull(channel[1..]) || IsFull(channel[0])
      ensures AfloatOk(items, channel[1..], frame, sid)
    {
      TakenOff(channel, sid);
      AfloatAfterDelivery(items, channel, frame, sid);
    }

    /** The tab handles element states; if it does not know the sensor it asks for everything. */
    method DeliverState()
      requires Valid() && channel != [] && channel[0].State?
      modifies this`channel, this`resyncs, this`live, this`sessions
      ensures Valid() && channel == old(channel)[1..] && Due() == old(Due()) && Known(sessions, frame, sid)
      ensures resyncs == old(resyncs) + (if !old(Known(sessions, frame, sid)) && !old(channel)[0].payload.full then 1 else 0)
    {
      var p := channel[0].payload;
      MineReceived(live, sessions, frame, sid, p);
      ReceivedMatches(live, sessions, frame, sid, p);
      var known := Known(sessions, frame, sid);
      var after := Received(live, known, frame, sid, p);
      CarriedOut(Mine(after, frame, sid));
      live := after;
      sessions := sessions[frame := sid];
      if !known && !p.full {
        resyncs := resyncs + 1;
      }
      channel := channel[1..];
    }

    /** The tab handles a status message: it registers the sensor and asks for nothing. */
    method DeliverStatus()
      requires Valid() && channel != [] && channel[0].Register?
      modifies this`channel, this`live, this`sessions, this`hidden
      ensures Valid() && channel == old(channel)[1..] && Due() == old(Due()) && Known(sessions, frame, sid)
      ensures hidden == if old(Known(sessions, frame, sid)) then old(hidden) else Sent(items) - Afloat(old(channel))
      ensures live == if old(Known(sessions, frame, sid)) then old(live) else Adopted(old(live), frame, sid)
    {
      CarriedOut(Mine(live, frame, sid));
      if !Known(sessions, frame, sid) {
        UnknownHoldsNothing(live, sessions, frame, sid);
        EmptiedMisses(items, channel, frame, sid);
        hidden := Sent(items) - Afloat(channel);
        assert Mine(Adopted(live, frame, sid), frame, sid) == Mine(live, frame, sid);
        live := Adopted(live, frame, sid);
        sessions := sessions[frame := sid];
      }
      channel := channel[1..];
    }

    /** The tab handles an address change. */
    method DeliverNavigation()
      requires Valid() && channel != [] && channel[0].Navigated?
      modifies this`channel, this`live
      ensures Valid() && channel == old(channel)[1..] && Due() == old(Due())
      ensures live == if old(channel)[0].clears then map[] else old(live)
    {
      var after: Elements := if channel[0].clears then map[] else live;
      assert Mine(map[], frame, sid) == map[];
      CarriedOut(Mine(after, frame, sid));
      live := after;
      channel := channel[1..];
    }

    /** A message of another frame's sensor. */
    method DeliverOther(other: nat, otherSid: string, p: Payload)
      requires Valid() && other != frame && otherSid != sid && OwnKeys(otherSid, p.elements)
      requires forall i :: 0 <= i < |p.removed| ==> p.removed[i].sid == otherSid
      modifies this`live, this`sessions
      ensures Valid() && Mine(live, frame, sid) == Mine(old(live), frame, sid)
    {
      OthersDoNotTouch(live, sessions, frame, sid, other, otherSid, p);
      ReceivedMatches(live, sessions, other, otherSid, p);
      live := Received(live, Known(sessions, other, otherSid), other, otherSid, p);
      sessions := sessions[other := otherSid];
    }

    /** The tab without its elements: what is due then is what is afloat. */
    lemma Emptied()
      requires Ordered()
      ensures Mine(map[], frame, sid) == map[]
      ensures Drained(map[], channel, frame, sid).Keys <= Due().Keys
      ensures HasFull(channel) ==> Drained(map[], channel, frame, sid) == Due()
      ensures Missing(items, Drained(map[], channel, frame, sid), frame) == Sent(items) - Afloat(channel)
    {
      MineIsMine(live, frame, sid);
      DrainedMonotone(map[], Mine(live, frame, sid), channel, frame, sid);
      if HasFull(channel) {
        FullDrained(map[], Mine(live, frame, sid), channel, frame, sid);
      }
      EmptiedMisses(items, channel, frame, sid);
    }

    /** The background drops the tab's elements and registrations together. */
    method Drop()
      requires Valid()
      modifies this`live, this`sessions, this`hidden
      ensures Valid() && live == map[] && sessions == map[] && hidden == {}
    {
      Emptied();
      live, sessions, hidden := map[], map[], {};
    }

    /**
     * Another frame changes its page: the tab drops the elements of all frames but keeps their sensors
     * registered, and this sensor does not hear of it.
     */
    method PageChangesElsewhere()
      requires Valid()
      modifies this`live, this`hidden
      ensures Valid() && live == map[]
      ensures hidden == if Known(sessions, frame, sid) then Sent(items) - Afloat(channel) else {}
    {
      Emptied();
      live := map[];
      hidden := if Known(sessions, frame, sid) then Sent(items) - Afloat(channel) else {};
    }

    // ----- Everything under way arrives -----

    method DeliverNext()
      requires Valid() && channel != []
      modifies this`channel, this`resyncs, this`live, this`sessions, this`hidden
      ensures Valid() && channel == old(channel)[1..] && resyncs >= old(resyncs)
      ensures old(Known(sessions, frame, sid)) ==> Known(sessions, frame, sid)
    {
      match channel[0]
      case State(_) => DeliverState();
      case Register => DeliverStatus();
      case Navigated(_) => DeliverNavigation();
    }

    method DeliverAll()
      requires Valid()
      modifies this`channel, this`resyncs, this`live, this`sessions, this`hidden
      ensures Valid() && channel == [] && resyncs >= old(resyncs)
      ensures old(Known(sessions, frame, sid)) ==> Known(sessions, frame, sid)
      ensures old(channel) == [] ==>
        resyncs == old(resyncs) && live == old(live) && sessions == old(sessions) && hidden == old(hidden)
    {
      while channel != []
        invariant Valid() && resyncs >= old(resyncs)
        invariant old(Known(sessions, frame, sid)) ==> Known(sessions, frame, sid)
        invariant old(channel) == [] ==>
          channel == [] && resyncs == old(resyncs) && live == old(live) && sessions == old(sessions) && hidden == old(hidden)
        decreases |channel|
      {
        DeliverNext();
      }
    }

    method HearAll()
      requires Valid()
      modifies this`fullPending, this`resyncs
      ensures Valid() && resyncs == 0 && (fullPending <==> old(fullPending) || old(resyncs) > 0)
    {
      while resyncs > 0
        invariant Valid() && (fullPending || resyncs > 0 <==> old(fullPending) || old(resyncs) > 0)
        decreases resyncs
      {
        HearResync();
      }
    }

    /** The next flush will put a message on the channel. */
    ghost predicate Pending(now: Key -> Snapshot)
      reads this
    {
      fullPending || resyncs > 0 || removedKeys != {} || Outgoing(items, dirty, false, now) != {}
    }

    /** A flush with nothing under way, and the arrival of what it sends. */
    method FlushThrough(now: Key -> Snapshot)
      requires Valid() && channel == [] && resyncs == 0 && NamesItself(now)
      modifies this
      ensures Valid() && channel == [] && dirty == {} && removedKeys == {} && !fullPending
      ensures items.Keys == old(items).Keys && Sent(items) == items.Keys
      ensures forall k :: k in Chosen(old(items), old(dirty), old(fullPending)) ==> items[k].lastSent == Some(now(k))
      ensures Known(sessions, frame, sid) <==> old(Known(sessions, frame, sid)) || old(Pending(now))
      ensures resyncs == if !old(Known(sessions, frame, sid)) && old(Pending(now)) && !old(fullPending) then 1 else 0
      ensures old(fullPending) ==> hidden == {}
    {
      Flush(now);
      assert channel == channel[|old(channel)|..];
      FlushPosts(old(items), items, old(dirty), old(removedKeys), old(fullPending), now, channel);
      if channel != [] {
        DeliverState();
      }
    }

    // ----- What it comes to -----

    /** Nothing is under way or waiting to be sent. */
    ghost predicate Quiet()
      reads this
    {
      channel == [] && dirty == {} && removedKeys == {} && Settled()
    }

    /** When all is quiet the tab holds exactly the tracked elements, as last sent, if and only if no loss is hidden. */
    lemma QuietExactly()
      requires Valid() && Quiet()
      ensures Sent(items) == items.Keys && hidden <= items.Keys
      ensures Mine(live, frame, sid) == LastSent(items, frame) <==> hidden == {}
    {
      assert Due() == Mine(live, frame, sid);
      if hidden != {} {
        var k :| k in hidden;
        assert k in LastSent(items, frame);
      } else {
        forall k | k in items ensures k in Mine(live, frame, sid) && Mine(live, frame, sid)[k] == LastSent(items, frame)[k] {
          assert k !in Missing(items, Mine(live, frame, sid), frame);
        }
      }
    }

    /** Everything that will be missing is hidden, or the sensor will be or has been asked for a full snapshot. */
    lemma LossIsNoticed()
      requires Valid() && Missing(items, Due(), frame) != hidden
      ensures !Known(sessions, frame, sid) || resyncs > 0 || fullPending
    {
    }
  }

  /** A set as a list, in some order. */
  method Listed(keys: set<Key>) returns (s: seq<Key>)
    ensures forall k :: k in s <==> k in keys
  {
    s := [];
    var todo := keys;
    while todo != {}
      invariant todo <= keys && forall k :: k in s <==> k in keys - todo
      decreases todo
    {
      var k :| k in todo;
      s := s + [k];
      todo := todo - {k};
    }
  }

  /**
   * From any quiet state: the background drops everything, and a status message arrives before the next
   * element message. It registers the sensor, so nobody asks for a full snapshot; all is quiet again,
   * nothing is marked for sending, and the loss of every tracked element is hidden.
   */
  method StatusHidesLoss(link: Link)
    requires link.Valid() && link.Quiet()
    modifies link
    ensures link.Valid() && link.Quiet() && link.items == old(link.items) && link.live == map[]
    ensures link.hidden == link.items.Keys
  {
    link.QuietExactly();
    link.Drop();
    link.SendStatus();
    link.DeliverStatus();
    assert link.live == map[];
    assert Afloat([Register]) == {} by { assert [Register][..0] == []; }
  }

  /**
   * Left alone, every link comes to rest within two flushes. Then either the tab knows the sensor and
   * holds exactly the tracked elements as last sent, if and only if no loss is hidden, or nothing of the
   * sensor is there and there was nothing to send.
   */
  method ComesToRest(link: Link, now: Key -> Snapshot)
    requires link.Valid() && NamesItself(now)
    modifies link
    ensures link.Valid() && link.items.Keys == old(link.items).Keys
    ensures link.channel == [] && link.dirty == {} && link.removedKeys == {} && link.resyncs == 0 && !link.fullPending
    ensures forall k :: k in link.items && k in old(link.dirty) ==> link.items[k].lastSent == Some(now(k))
    ensures Known(link.sessions, link.frame, link.sid) ==>
      link.Quiet() && (Mine(link.live, link.frame, link.sid) == LastSent(link.items, link.frame) <==> link.hidden == {})
    ensures !Known(link.sessions, link.frame, link.sid) ==>
      Mine(link.live, link.frame, link.sid) == map[] && !old(link.Pending(now))
    ensures old(link.channel) == [] && !old(Known(link.sessions, link.frame, link.sid)) ==> link.hidden == {}
    ensures old(link.channel) == [] && !old(Known(link.sessions, link.frame, link.sid)) && old(link.Pending(now)) ==>
      Known(link.sessions, link.frame, link.sid) && forall k :: k in link.items ==> link.items[k].lastSent == Some(now(k))
  {
    link.DeliverAll();
    link.HearAll();
    link.FlushThrough(now);
    if link.resyncs > 0 {
      link.HearAll();
      link.FlushThrough(now);
    }
    if Known(link.sessions, link.frame, link.sid) {
      link.QuietExactly();
    } else {
      UnknownHoldsNothing(link.live, link.sessions, link.frame, link.sid);
    }
  }

  /**
   * The background drops everything while nothing is under way. The next message, whatever it carries, is
   * answered with a resync, and the full snapshot that follows restores every tracked element.
   */
  method LossIsRepaired(link: Link, now: Key -> Snapshot)
    requires link.Valid() && link.channel == [] && NamesItself(now) && link.Pending(now)
    modifies link
    ensures link.Valid() && link.Quiet() && link.items.Keys == old(link.items).Keys && link.hidden == {}
    ensures Mine(link.live, link.frame, link.sid) == LastSent(link.items, link.frame)
    ensures LastSent(link.items, link.frame) == map k | k in old(link.items) :: Placed(link.frame, now(k))
  {
    link.Drop();
    ComesToRest(link, now);
  }

  /** From any quiet state: a page change in another frame alone hides the loss of every tracked element. */
  method PageChangeHidesLoss(link: Link)
    requires link.Valid() && link.Quiet()
    modifies link
    ensures link.Valid() && link.Quiet() && link.items == old(link.items) && link.live == map[]
    ensures link.hidden == link.items.Keys
  {
    link.QuietExactly();
    link.PageChangesElsewhere();
  }
}
