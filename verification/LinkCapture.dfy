/**
 * The right-click link-capture registry (fluxDown/utils/link-capture.ts).
 * Every public method is one callback; timers, download promises and interception events may come
 * in any order.
 */
module LinkCapture {
  import opened Options

  /** An entry with its history: the value its promise was resolved with and the number of `claimed` answers. */
  datatype View = View(
    downloadId: Option<nat>, abandoned: bool, undecided: bool, timer: bool, ttl: bool,
    outcome: Option<bool>, claims: nat)

  /**
   * The promise is resolved at most once and with `true` exactly when the entry was claimed once; an
   * undecided entry is registered with its start timer running; a registered entry is undecided
   * exactly when it has not been abandoned, and an abandoned one has its removal scheduled.
   */
  ghost predicate EntryInv(v: View, registered: bool) {
    (v.undecided <==> v.outcome.None?) &&
    v.claims == (if v.outcome == Some(true) then 1 else 0) &&
    (v.undecided ==> registered && v.timer) &&
    (v.abandoned ==> v.outcome == Some(false)) &&
    (registered ==> (v.undecided <==> !v.abandoned)) &&
    (registered && v.abandoned ==> v.ttl)
  }

  class Entry {
    const key: string
    const url: string
    var downloadId: Option<nat>
    var abandoned: bool
    /** The promise's resolver is still there. */
    var undecided: bool
    /** The start timeout is armed. */
    var timer: bool
    /** The removal of the abandoned entry is scheduled. */
    var ttl: bool
    ghost var outcome: Option<bool>
    ghost var claims: nat

    ghost function V(): View
      reads this
    {
      View(downloadId, abandoned, undecided, timer, ttl, outcome, claims)
    }

    constructor (key: string, url: string)
      ensures this.key == key && this.url == url && V() == View(None, false, true, true, false, None, 0)
    {
      this.key, this.url := key, url;
      downloadId, abandoned, undecided, timer, ttl := None, false, true, true, false;
      outcome, claims := None, 0;
    }

    /** Resolves the promise if that has not happened yet; a second call does nothing. */
    method Settle(claimed: bool)
      requires undecided <==> outcome.None?
      modifies this`timer, this`undecided, this`outcome
      ensures V() == old(V()).(timer := false, undecided := false,
                               outcome := if old(outcome).Some? then old(outcome) else Some(claimed))
    {
      timer := false;
      if undecided { outcome := Some(claimed); }
      undecided := false;
    }
  }

  /** A browser download as the interception layer sees it, its URL normalised. */
  datatype Download = Download(id: nat, url: string)

  datatype Claim = Claimed(url: string) | Declined | Abandoned

  function Without(s: seq<Entry>, e: Entry): (r: seq<Entry>)
    ensures (forall i :: 0 <= i < |r| ==> r[i] in s && r[i] != e) && forall i :: 0 <= i < |s| && s[i] != e ==> s[i] in r
  {
    if s == [] then [] else (if s[0] == e then [] else [s[0]]) + Without(s[1..], e)
  }

  class Registry {
    /** Registered entries in order of insertion. */
    var entries: seq<Entry>
    /** Every entry ever made: timers and promises keep removed ones alive. */
    ghost var all: set<Entry>

    /** At most one undecided capture per URL. */
    ghost predicate OnePerUrl()
      reads this, all
    {
      forall a, b :: a in all && b in all && a.undecided && b.undecided && a.key == b.key ==> a == b
    }

    ghost predicate Valid()
      reads this, all
    {
      (forall e :: e in entries ==> e in all) &&
      (forall e :: e in all ==> EntryInv(e.V(), e in entries)) &&
      OnePerUrl()
    }

    constructor ()
      ensures Valid() && entries == [] && all == {}
    {
      entries, all := [], {};
    }

    predicate Matches(e: Entry, item: Download)
      reads e
    {
      if e.downloadId.Some? then e.downloadId.value == item.id else e.key == item.url
    }

    /** `e` is the first registered entry the download belongs to. */
    ghost predicate IsFirst(e: Entry, item: Download)
      reads this, entries
    {
      exists i :: 0 <= i < |entries| && entries[i] == e && Matches(e, item) &&
                  forall j :: 0 <= j < i ==> !Matches(entries[j], item)
    }

    /** The download belongs to no entry. */
    ghost predicate Foreign(item: Download)
      reads this, entries
    {
      forall e :: e in entries ==> !Matches(e, item)
    }

    /** The first registered entry the download belongs to. */
    method Find(item: Download) returns (found: Option<Entry>)
      ensures match found case None => Foreign(item) case Some(e) => e in entries && IsFirst(e, item)
    {
      for i := 0 to |entries|
        invariant forall j :: 0 <= j < i ==> !Matches(entries[j], item)
      {
        if Matches(entries[i], item) { return Some(entries[i]); }
      }
      return None;
    }

    /** `capture`: refused at once (`None`) while the same URL has an undecided capture. */
    method Capture(key: string, url: string) returns (r: Option<Entry>)
      requires Valid()
      modifies this
      ensures Valid()
      ensures r.None? <==> exists e :: e in old(all) && old(e.undecided) && e.key == key
      ensures r.None? ==> entries == old(entries) && all == old(all)
      ensures r.Some? ==> fresh(r.value) && r.value.key == key && r.value.url == url && r.value.undecided &&
                          entries == old(entries) + [r.value] && all == old(all) + {r.value}
    {
      for i := 0 to |entries|
        invariant forall j :: 0 <= j < i ==> !(entries[j].key == key && entries[j].undecided)
      {
        if entries[i].key == key && entries[i].undecided { return None; }
      }
      assert forall e :: e in all && e.undecided ==> e in entries;
      var entry := new Entry(key, url);
      assert forall e :: e in all ==> e.V() == old(e.V());
      entries := entries + [entry];
      all := all + {entry};
      return Some(entry);
    }

    /** The browser download of the entry has started; true when it must be cancelled at once. */
    method Started(entry: Entry, id: nat) returns (discard: bool)
      requires Valid() && entry in all
      modifies entry`downloadId
      ensures Valid() && (discard <==> entry in entries && entry.abandoned)
      ensures entry.downloadId == if entry in entries then Some(id) else old(entry.downloadId)
    {
      if entry !in entries { return false; }
      entry.downloadId := Some(id);
      return entry.abandoned;
    }

    method Delete(entry: Entry)
      modifies this`entries
      ensures entries == Without(old(entries), entry)
      ensures entry !in entries && (forall e :: e in entries ==> e in old(entries)) &&
              forall e :: e in old(entries) && e != entry ==> e in entries
    {
      entries := Without(entries, entry);
    }

    /** Removes the entry and resolves its promise, if still open, with `claimed`. */
    method Finish(entry: Entry, claimed: bool)
      requires Valid() && entry in all && (claimed ==> entry.undecided)
      modifies this`entries, entry
      ensures Valid() && entry !in entries && entry.outcome.Some? && entries == Without(old(entries), entry)
      ensures entry.outcome == if old(entry.outcome).Some? then old(entry.outcome) else Some(claimed)
      ensures entry.claims == old(entry.claims) + if claimed then 1 else 0
    {
      Delete(entry);
      entry.Settle(claimed);
      ghost var more := if claimed then 1 else 0;
      entry.claims := entry.claims + more;
    }

    /** The browser download could not be started. */
    method Failed(entry: Entry)
      requires Valid() && entry in all
      modifies this`entries, entry
      ensures Valid() && entry !in entries && entries == Without(old(entries), entry)
      ensures entry.outcome == if old(entry.outcome).Some? then old(entry.outcome) else Some(false)
    {
      Finish(entry, false);
    }

    /** The start timeout fires; true when a download already running must be cancelled. */
    method Abandon(entry: Entry) returns (discard: bool)
      requires Valid() && entry in all && entry.timer
      modifies entry
      ensures Valid()
      ensures entry.V() ==
        if old(entry.undecided) then
          old(entry.V()).(timer := false, undecided := false, abandoned := true, ttl := true, outcome := Some(false))
        else old(entry.V()).(timer := false)
      ensures discard <==> old(entry.undecided) && old(entry.downloadId).Some?
    {
      entry.timer := false;
      if entry !in entries || !entry.undecided { return false; }
      entry.abandoned := true;
      entry.Settle(false);
      entry.ttl := true;
      return entry.downloadId.Some?;
    }

    /** The removal of an abandoned entry. */
    method Forget(entry: Entry)
      requires Valid() && entry in all && entry.ttl && entry.abandoned
      modifies this`entries, entry`ttl
      ensures Valid() && entry !in entries && entries == Without(old(entries), entry)
    {
      entry.ttl := false;
      Delete(entry);
    }

    /**
     * `claim`: the answer to the interception layer. `Claimed` tells it to send, and goes together
     * with resolving the promise with `true`; every other answer leaves the sending to the caller.
     */
    method DoClaim(item: Download, accept: bool) returns (r: Option<Claim>)
      requires Valid()
      modifies this`entries, all
      ensures Valid()
      ensures r.None? ==> old(Foreign(item)) && entries == old(entries) && forall e :: e in all ==> e.V() == old(e.V())
      ensures r.Some? ==> exists e :: e in all && old(IsFirst(e, item)) && e !in entries &&
                            entries == Without(old(entries), e) &&
                            (forall other :: other in all && other != e ==> other.V() == old(other.V())) &&
                            match r.value
                            case Claimed(url) => accept && url == e.url && old(e.undecided) && e.outcome == Some(true)
                            case Declined => !accept && old(e.undecided) && e.outcome == Some(false)
                            case Abandoned => old(e.abandoned) && e.outcome == Some(false)
      ensures forall e :: e in all ==> e.claims == old(e.claims) || (r.Some? && r.value.Claimed?)
    {
      var found := Find(item);
      if found.None? { return None; }
      var entry := found.value;
      assert entry in all && old(IsFirst(entry, item));
      if entry.abandoned {
        Delete(entry);
        r := Some(Abandoned);
      } else {
        Finish(entry, accept);
        r := Some(if accept then Claimed(entry.url) else Declined);
      }
    }

    /** The browser download ended before it could be claimed. */
    method Interrupted(item: Download)
      requires Valid()
      modifies this`entries, all
      ensures Valid()
      ensures old(Foreign(item)) ==> entries == old(entries) && forall e :: e in all ==> e.V() == old(e.V())
      ensures !old(Foreign(item)) ==>
        exists e :: e in all && old(IsFirst(e, item)) && e !in entries && entries == Without(old(entries), e) &&
                    e.outcome == Some(false) && forall other :: other in all && other != e ==> other.V() == old(other.V())
      ensures forall e :: e in all ==> e.claims == old(e.claims) && (e.V() == old(e.V()) || e.outcome.Some?)
    {
      var found := Find(item);
      if found.Some? {
        assert found.value in all && old(IsFirst(found.value, item));
        Finish(found.value, false);
      }
    }

    /** The link is sent exactly one way: by the interception layer or, once the promise is `false`, by the caller. */
    lemma SentOneWay(e: Entry)
      requires Valid() && e in all
      ensures e.claims <= 1
      ensures e.claims == 1 <==> e.outcome == Some(true)
      ensures e.outcome.None? ==> e.timer && e in entries
      ensures e in entries ==> (e.undecided <==> !e.abandoned)
    {
    }
  }
}
