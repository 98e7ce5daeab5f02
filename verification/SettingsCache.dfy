/**
 * The versioned settings and site-profile caches (fluxDown/background/settings-cache.ts).
 * Storage is read part by part (settings live in two storage areas), writes and change
 * notifications happen at any moment, and loads may overlap.
 */
module SettingsCache {
  import opened Options

  /** A load under way: the version when it started and the parts read so far. */
  datatype Load<V> = Load(startVersion: nat, parts: seq<V>)

  class Cache<V(==)> {
    var cache: Option<seq<V>>
    var inflight: Option<nat>
    /** Counts the delivered change notifications. */
    var version: nat

    /** The world: stored parts, notifications on their way, loads under way. */
    var storage: seq<V>
    var pending: nat
    var loads: map<nat, Load<V>>
    var nextLoad: nat
    /** Version at the start of the load that filled the cache. */
    ghost var filledAt: nat
    /** Two loads were under way at once; a load was started beside another. */
    ghost var overlapped: bool
    ghost var doubled: bool
    /** A notification was delivered while a load was under way. */
    ghost var exposed: bool

    ghost predicate Current(l: Load<V>)
      reads this
    {
      l.startVersion == version && pending == 0 ==> l.parts <= storage
    }

    /** Every load under way is the one that callers join. */
    ghost predicate Joined()
      reads this`loads, this`inflight
    {
      forall id :: id in loads ==> inflight == Some(id)
    }

    ghost predicate Valid()
      reads this
    {
      (forall id :: id in loads ==> id < nextLoad && loads[id].startVersion <= version && Current(loads[id])) &&
      (inflight.Some? ==> inflight.value in loads && loads[inflight.value].startVersion == version && cache.None?) &&
      (cache.Some? ==> filledAt == version && (pending == 0 ==> cache.value == storage)) &&
      (!Single(loads.Keys) ==> overlapped) && (overlapped <==> doubled) && (doubled ==> exposed) && (!exposed ==> Joined())
    }

    constructor (storage: seq<V>)
      ensures Valid() && this.storage == storage && pending == 0 && cache == None && loads == map[] && version == 0
      ensures !overlapped && !exposed
    {
      this.storage := storage;
      cache, inflight, version, pending, loads, nextLoad, filledAt := None, None, 0, 0, map[], 0, 0;
      overlapped, doubled, exposed := false, false, false;
    }

    /**
     * A non-empty cache was filled by a load started after the last delivered notification, and
     * equals storage whenever no notification is on its way.
     */
    lemma CacheIsFresh()
      requires Valid() && cache.Some?
      ensures filledAt == version
      ensures pending == 0 ==> cache.value == storage
    {
    }

    /** `getCachedSettings`: the cached value, or the load to wait for, a new one if none is joined. */
    method Get() returns (value: Option<seq<V>>, wait: Option<nat>)
      requires Valid()
      modifies this`inflight, this`loads, this`nextLoad, this`overlapped, this`doubled
      ensures Valid() && value == cache && (old(Joined()) ==> Joined())
      ensures cache.Some? ==> wait == None && loads == old(loads) && inflight == old(inflight)
      ensures cache.None? ==> wait == inflight && wait.Some?
      ensures old(inflight).Some? ==> loads == old(loads)
      ensures cache.None? && old(inflight).None? ==>
                wait.value !in old(loads) && loads == old(loads)[wait.value := Load(version, [])]
      ensures doubled <==> old(doubled) || (cache.None? && old(inflight).None? && old(loads) != map[])
      ensures overlapped <==> old(overlapped) || !Single(loads.Keys)
    {
      if cache.Some? { return cache, None; }
      if inflight.Some? { return None, inflight; }
      var id := nextLoad;
      nextLoad := nextLoad + 1;
      doubled := doubled || loads != map[];
      OneMore(loads, id, Load(version, []));
      loads := loads[id := Load(version, [])];
      overlapped := overlapped || !Single(loads.Keys);
      inflight := Some(id);
      return None, Some(id);
    }

    /** A load reads its next part. */
    method Read(id: nat)
      requires Valid() && id in loads && |loads[id].parts| < |storage|
      modifies this`loads
      ensures Valid() && loads == old(loads)[id := Load(old(loads)[id].startVersion,
                                                       old(loads)[id].parts + [storage[|old(loads)[id].parts|]])]
      ensures old(Joined()) ==> Joined()
    {
      var l := loads[id];
      loads := loads[id := Load(l.startVersion, l.parts + [storage[|l.parts|]])];
    }

    /** A load is complete: it fills the cache unless a notification came in between. */
    method Complete(id: nat) returns (value: seq<V>)
      requires Valid() && id in loads && |loads[id].parts| == |storage|
      modifies this`cache, this`inflight, this`loads, this`filledAt
      ensures Valid() && value == old(loads)[id].parts && loads == old(loads) - {id} && inflight == None
      ensures cache == if old(loads)[id].startVersion == version then Some(value) else old(cache)
      ensures old(Joined()) ==> Joined()
    {
      var l := loads[id];
      if version == l.startVersion {
        cache := Some(l.parts);
        filledAt := version;
      }
      inflight := None;
      loads := loads - {id};
      return l.parts;
    }

    method Fail(id: nat)
      requires Valid() && id in loads
      modifies this`inflight, this`loads
      ensures Valid() && cache == old(cache) && loads == old(loads) - {id} && inflight == None
      ensures old(Joined()) ==> Joined()
    {
      inflight := None;
      loads := loads - {id};
    }

    /** Someone writes a part; a real change sends a notification. */
    method Write(i: nat, v: V)
      requires Valid() && i < |storage|
      modifies this`storage, this`pending
      ensures Valid() && storage == old(storage)[i := v]
      ensures pending == old(pending) + if v == old(storage)[i] then 0 else 1
    {
      if storage[i] != v {
        storage := storage[i := v];
        pending := pending + 1;
      }
    }

    /** A change notification is delivered. */
    method Notify()
      requires Valid() && pending > 0
      modifies this`cache, this`inflight, this`version, this`pending, this`exposed
      ensures Valid() && cache == None && inflight == None && version == old(version) + 1 && pending == old(pending) - 1
      ensures (Joined() <==> loads == map[]) && (exposed <==> old(exposed) || loads != map[])
    {
      exposed := exposed || loads != map[];
      pending := pending - 1;
      cache, inflight := None, None;
      version := version + 1;
    }

    /**
     * Along every run: two loads were under way at once exactly when a load was started beside another
     * (by `Get`, with neither a cached value nor a marker), and only after a notification that was
     * delivered while a load was under way.
     */
    lemma OverlapExactly()
      requires Valid()
      ensures overlapped <==> doubled
      ensures overlapped ==> exposed
      ensures !overlapped ==> Single(loads.Keys)
    {
    }
  }

  lemma OneMore<V>(loads: map<nat, Load<V>>, id: nat, l: Load<V>)
    requires id !in loads
    ensures Single(loads[id := l].Keys) <==> loads == map[]
  {
    if loads != map[] {
      var other :| other in loads;
      assert other in loads[id := l].Keys && id in loads[id := l].Keys;
    }
  }

  /** At most one load. */
  ghost predicate Single(ids: set<nat>) {
    forall a, b :: a in ids && b in ids ==> a == b
  }

  /**
   * The marker of the load under way is there to keep callers from loading twice. From any state with a
   * load under way, a notification and a caller are enough to start another beside it.
   */
  method NotificationDoubles<V>(c: Cache<V>, v: V)
    requires c.Valid() && c.loads != map[] && c.storage != [] && v != c.storage[0]
    modifies c
    ensures c.Valid() && c.doubled && c.overlapped && !Single(c.loads.Keys)
  {
    if c.pending == 0 {
      c.Write(0, v);
    }
    c.Notify();
    ghost var other :| other in c.loads;
    var _, id := c.Get();
    assert other in c.loads.Keys && id.value in c.loads.Keys && other != id.value;
  }

  /** Without a load under way a notification does no harm: the next caller's load is the only one. */
  method NotificationAlone<V>(c: Cache<V>)
    requires c.Valid() && c.loads == map[] && c.pending > 0
    modifies c
    ensures c.Valid() && c.loads != map[] && Single(c.loads.Keys) && c.Joined()
    ensures c.doubled == old(c.doubled) && c.exposed == old(c.exposed)
  {
    c.Notify();
    var _, id := c.Get();
    assert id.value in c.loads;
  }

  /** Two loads: the first outdated by a notification, the second marked. */
  method OutdatedAndMarked() returns (c: Cache<nat>, first: nat, second: nat)
    ensures fresh(c) && c.Valid() && c.pending == 0 && c.version == 1 && c.cache == None && c.storage == [1]
    ensures first != second && c.inflight == Some(second) && c.overlapped
    ensures c.loads == map[first := Load(0, [0]), second := Load(1, [])]
  {
    c := new Cache<nat>([0]);
    var _, one := c.Get();
    first := one.value;
    c.Read(first);
    assert [] + [0] == [0];
    c.Write(0, 1);
    c.Notify();
    var _, two := c.Get();
    second := two.value;
    assert first in c.loads.Keys && second in c.loads.Keys;
  }

  /**
   * A run of three loads: the completion of an outdated load also clears the marker of the load that
   * replaced it, so that two loads of the same version are under way.
   */
  method LoadsCanOverlap() returns (c: Cache<nat>)
    ensures fresh(c) && c.Valid() && c.pending == 0 && c.version == 1 && c.overlapped
    ensures |c.loads| == 2 && forall id :: id in c.loads ==> c.loads[id].startVersion == c.version
  {
    var first, second;
    c, first, second := OutdatedAndMarked();
    var _ := c.Complete(first);
    var _, third := c.Get();
    assert c.loads == map[second := Load(1, []), third.value := Load(1, [])];
    assert c.loads.Keys == {second, third.value};
    assert |c.loads| == |c.loads.Keys|;
  }
}
