/** Grouping the manifests of one medium (fluxDown/utils/media-candidates.ts, `groupManifests`). */
module ManifestGroups {
  import opened Options
  import opened Sequences
  import opened Sorting

  /** URL facts decided by the host: file identity, whether it is too generic, path, origin class. */
  datatype Urls = Urls(
    fileKey: string -> string, generic: string -> bool, path: string -> string, source: string -> string)

  datatype Track = Track(url: string, period: string, height: int, bandwidth: int)

  datatype Manifest = Manifest(video: seq<Track>, audio: seq<Track>)

  datatype Item = Item(manifest: Manifest, url: string, index: nat, key: string)

  // ----- Sharing a track file -----

  predicate SameFile(a: string, b: string, env: Urls) {
    env.fileKey(a) == env.fileKey(b) &&
    (!env.generic(env.fileKey(a)) || env.path(a) == env.path(b) || env.source(a) == env.source(b))
  }

  function TrackUrls(ts: seq<Track>): seq<string> {
    seq(|ts|, i requires 0 <= i < |ts| => ts[i].url)
  }

  function UrlsOf(x: Item): seq<string> {
    TrackUrls(x.manifest.video) + TrackUrls(x.manifest.audio)
  }

  predicate AnyShared(us: seq<string>, vs: seq<string>, env: Urls) {
    exists u, v | u in us && v in vs :: SameFile(u, v, env)
  }

  /** Two manifests describe a common track file. */
  predicate Shares(x: Item, y: Item, env: Urls) {
    AnyShared(UrlsOf(x), UrlsOf(y), env)
  }

  lemma SharesSymmetric(x: Item, y: Item, env: Urls)
    ensures Shares(x, y, env) <==> Shares(y, x, env)
  {
    if u, v :| u in UrlsOf(x) && v in UrlsOf(y) && SameFile(u, v, env) { assert SameFile(v, u, env); }
    if u, v :| u in UrlsOf(y) && v in UrlsOf(x) && SameFile(u, v, env) { assert SameFile(v, u, env); }
  }

  // ----- Connection -----

  ghost predicate IsPath(p: seq<Item>, s: set<Item>, env: Urls) {
    p != [] && (forall i :: 0 <= i < |p| ==> p[i] in s) && forall i :: 0 < i < |p| ==> Shares(p[i - 1], p[i], env)
  }

  /** A chain of shared files inside `s` leads from `x` to `y`. */
  ghost predicate Connected(s: set<Item>, x: Item, y: Item, env: Urls) {
    exists p :: IsPath(p, s, env) && p[0] == x && p[|p| - 1] == y
  }

  lemma ConnectedSelf(s: set<Item>, x: Item, env: Urls)
    requires x in s
    ensures Connected(s, x, x, env)
  {
    assert IsPath([x], s, env);
  }

  lemma ConnectedStep(s: set<Item>, x: Item, y: Item, z: Item, env: Urls)
    requires Connected(s, x, y, env) && z in s && Shares(y, z, env)
    ensures Connected(s, x, z, env)
  {
    var p :| IsPath(p, s, env) && p[0] == x && p[|p| - 1] == y;
    var q := p + [z];
    assert IsPath(q, s, env) by {
      forall i | 0 <= i < |q| ensures q[i] in s && (i > 0 ==> Shares(q[i - 1], q[i], env)) {
        assert q[i] == if i < |p| then p[i] else z;
        assert i > 0 ==> q[i - 1] == p[i - 1];
      }
    }
    assert q[0] == x && q[|q| - 1] == z;
  }

  lemma ConnectedMore(s: set<Item>, t: set<Item>, x: Item, y: Item, env: Urls)
    requires Connected(s, x, y, env) && s <= t
    ensures Connected(t, x, y, env)
  {
    var p :| IsPath(p, s, env) && p[0] == x && p[|p| - 1] == y;
    assert IsPath(p, t, env);
  }

  lemma ConnectedJoin(s: set<Item>, x: Item, y: Item, z: Item, env: Urls)
    requires Connected(s, x, y, env) && Connected(s, y, z, env)
    ensures Connected(s, x, z, env)
  {
    var p :| IsPath(p, s, env) && p[0] == x && p[|p| - 1] == y;
    var q :| IsPath(q, s, env) && q[0] == y && q[|q| - 1] == z;
    var r := p + q[1..];
    assert IsPath(r, s, env) by {
      forall i | 0 < i < |r| ensures Shares(r[i - 1], r[i], env) {
        if i >= |p| { assert r[i] == q[i - |p| + 1] && r[i - 1] == q[i - |p|]; }
      }
    }
  }

  function Reverse(p: seq<Item>): seq<Item> {
    seq(|p|, i requires 0 <= i < |p| => p[|p| - 1 - i])
  }

  lemma ConnectedBack(s: set<Item>, x: Item, y: Item, env: Urls)
    requires Connected(s, x, y, env)
    ensures Connected(s, y, x, env)
  {
    var p :| IsPath(p, s, env) && p[0] == x && p[|p| - 1] == y;
    var r := Reverse(p);
    assert IsPath(r, s, env) by {
      forall i | 0 < i < |r| ensures Shares(r[i - 1], r[i], env) {
        SharesSymmetric(p[|p| - 1 - i], p[|p| - i], env);
      }
    }
  }

  // ----- Groups -----

  datatype Group = Group(items: seq<Item>, urls: seq<string>)

  ghost function Members(g: Group): set<Item> {
    set x | x in g.items
  }

  function Flat(groups: seq<Group>): seq<Item> {
    if groups == [] then [] else groups[0].items + Flat(groups[1..])
  }

  lemma {:induction false} FlatConcat(a: seq<Group>, b: seq<Group>)
    ensures Flat(a + b) == Flat(a) + Flat(b)
  {
    if a == [] {
      assert a + b == b;
    } else {
      assert (a + b)[1..] == a[1..] + b;
      FlatConcat(a[1..], b);
    }
  }

  /** The recorded URLs are those of the items. */
  ghost predicate UrlsTrue(g: Group) {
    forall u :: u in g.urls <==> exists x :: x in g.items && u in UrlsOf(x)
  }

  ghost predicate Apart(g: Group, h: Group, env: Urls) {
    forall x, y :: x in g.items && y in h.items ==> !Shares(x, y, env) && !Shares(y, x, env)
  }

  ghost predicate Joined(g: Group, env: Urls) {
    forall x, y :: x in g.items && y in g.items ==> Connected(Members(g), x, y, env)
  }

  ghost predicate GroupsOk(groups: seq<Group>, env: Urls) {
    (forall i :: 0 <= i < |groups| ==> groups[i].items != [] && UrlsTrue(groups[i]) && Joined(groups[i], env)) &&
    forall i, j :: 0 <= i < |groups| && 0 <= j < |groups| && i != j ==> Apart(groups[i], groups[j], env)
  }

  /** Some item of the group shares a file with `x`. */
  ghost predicate Touches(g: Group, x: Item, env: Urls) {
    exists y :: y in g.items && Shares(y, x, env)
  }

  lemma MatchIsTouch(g: Group, x: Item, env: Urls)
    requires UrlsTrue(g)
    ensures AnyShared(UrlsOf(x), g.urls, env) <==> Touches(g, x, env)
  {
    if u, v :| u in UrlsOf(x) && v in g.urls && SameFile(u, v, env) {
      var y :| y in g.items && v in UrlsOf(y);
      assert SameFile(v, u, env);
      assert Shares(y, x, env);
    }
    if y :| y in g.items && Shares(y, x, env) {
      var v, u :| v in UrlsOf(y) && u in UrlsOf(x) && SameFile(v, u, env);
      assert SameFile(u, v, env) && v in g.urls;
    }
  }

  ghost predicate GroupOk(g: Group, env: Urls) {
    g.items != [] && UrlsTrue(g) && Joined(g, env)
  }

  /** Everything collected so far leads to the new item. */
  ghost predicate LeadsTo(g: Group, item: Item, env: Urls) {
    forall x :: x in g.items ==> Connected(Members(g) + {item}, x, item, env)
  }

  /** State of the pass over the groups while `item` is added: `k` groups seen. */
  ghost predicate PassOk(others: seq<Group>, target: Group, groups: seq<Group>, k: nat, item: Item, env: Urls)
    requires k <= |groups|
  {
    (forall i :: 0 <= i < |others| ==> GroupOk(others[i], env) && !Touches(others[i], item, env)) &&
    (forall i, j :: 0 <= i < |others| && 0 <= j < |others| && i != j ==> Apart(others[i], others[j], env)) &&
    (forall i, m :: 0 <= i < |others| && k <= m < |groups| ==> Apart(others[i], groups[m], env)) &&
    (forall i :: 0 <= i < |others| ==> Apart(target, others[i], env)) &&
    (forall m :: k <= m < |groups| ==> Apart(target, groups[m], env)) &&
    UrlsTrue(target) && LeadsTo(target, item, env)
  }

  lemma ApartSymmetric(g: Group, h: Group, env: Urls)
    ensures Apart(g, h, env) <==> Apart(h, g, env)
  {
  }

  function Absorb(target: Group, g: Group): Group {
    Group(target.items + g.items, target.urls + g.urls)
  }

  lemma AbsorbLeads(target: Group, g: Group, item: Item, env: Urls)
    requires LeadsTo(target, item, env) && Joined(g, env) && Touches(g, item, env)
    ensures LeadsTo(Absorb(target, g), item, env)
  {
    var big := Members(Absorb(target, g)) + {item};
    var y :| y in g.items && Shares(y, item, env);
    forall x | x in Absorb(target, g).items
      ensures Connected(big, x, item, env)
    {
      if x in target.items {
        ConnectedMore(Members(target) + {item}, big, x, item, env);
      } else {
        ConnectedMore(Members(g), big, x, y, env);
        ConnectedStep(big, x, y, item, env);
      }
    }
  }

  lemma AbsorbKeepsPass(others: seq<Group>, target: Group, groups: seq<Group>, k: nat, item: Item, env: Urls)
    requires k < |groups| && PassOk(others, target, groups, k, item, env) && GroupsOk(groups, env)
    requires Touches(groups[k], item, env)
    ensures PassOk(others, Absorb(target, groups[k]), groups, k + 1, item, env)
  {
    AbsorbLeads(target, groups[k], item, env);
    forall i | 0 <= i < |others| ensures Apart(Absorb(target, groups[k]), others[i], env) {
      ApartSymmetric(others[i], groups[k], env);
    }
  }

  lemma KeepKeepsPass(others: seq<Group>, target: Group, groups: seq<Group>, k: nat, item: Item, env: Urls)
    requires k < |groups| && PassOk(others, target, groups, k, item, env) && GroupsOk(groups, env)
    requires !Touches(groups[k], item, env)
    ensures PassOk(others + [groups[k]], target, groups, k + 1, item, env)
  {
    forall i | 0 <= i < |others| ensures Apart(groups[k], others[i], env) {
      ApartSymmetric(others[i], groups[k], env);
    }
  }

  /** The merged group with the new item: joined, and apart from the groups it did not touch. */
  lemma PassDone(others: seq<Group>, target: Group, groups: seq<Group>, item: Item, env: Urls, at: nat)
    requires PassOk(others, target, groups, |groups|, item, env) && at <= |others|
    ensures var g := Group(target.items + [item], target.urls + UrlsOf(item));
            GroupsOk(others[..at] + [g] + others[at..], env)
  {
    var g := Group(target.items + [item], target.urls + UrlsOf(item));
    assert Members(g) == Members(target) + {item};
    assert UrlsTrue(g);
    forall x, y | x in g.items && y in g.items
      ensures Connected(Members(g), x, y, env)
    {
      ConnectedSelf(Members(g), item, env);
      assert Connected(Members(g), x, item, env) && Connected(Members(g), y, item, env);
      ConnectedBack(Members(g), y, item, env);
      ConnectedJoin(Members(g), x, item, y, env);
    }
    forall i | 0 <= i < |others|
      ensures Apart(g, others[i], env) && Apart(others[i], g, env)
    {
      forall y | y in others[i].items ensures !Shares(item, y, env) && !Shares(y, item, env) {
        SharesSymmetric(item, y, env);
      }
    }
    InsertedOk(others, g, at, env);
  }

  lemma InsertedOk(others: seq<Group>, g: Group, at: nat, env: Urls)
    requires at <= |others| && GroupOk(g, env)
    requires forall i :: 0 <= i < |others| ==> GroupOk(others[i], env) && Apart(g, others[i], env) && Apart(others[i], g, env)
    requires forall i, j :: 0 <= i < |others| && 0 <= j < |others| && i != j ==> Apart(others[i], others[j], env)
    ensures GroupsOk(others[..at] + [g] + others[at..], env)
  {
    var r := others[..at] + [g] + others[at..];
    forall i | 0 <= i < |r|
      ensures r[i] == if i < at then others[i] else if i == at then g else others[i - 1]
    {
    }
  }

  ghost predicate Accounted(others: seq<Group>, target: Group, groups: seq<Group>, k: nat)
    requires k <= |groups|
  {
    multiset(Flat(others)) + multiset(target.items) == multiset(Flat(groups[..k]))
  }

  lemma FlatSnoc(gs: seq<Group>, g: Group)
    ensures Flat(gs + [g]) == Flat(gs) + g.items
  {
    FlatConcat(gs, [g]);
    assert [g][1..] == [] && g.items + [] == g.items;
  }

  lemma AccountedNext(others: seq<Group>, target: Group, groups: seq<Group>, k: nat)
    requires k < |groups| && Accounted(others, target, groups, k)
    ensures Accounted(others, Absorb(target, groups[k]), groups, k + 1)
    ensures Accounted(others + [groups[k]], target, groups, k + 1)
  {
    assert groups[..k + 1] == groups[..k] + [groups[k]];
    FlatSnoc(groups[..k], groups[k]);
    FlatSnoc(others, groups[k]);
  }

  // ----- The order of the groups -----

  /** Of these members the item at `p` came first. */
  ghost predicate From(items: seq<Item>, members: seq<Item>, p: nat) {
    p < |items| && items[p] in members && forall x :: x in members ==> x in items[p..]
  }

  ghost predicate Rising(ps: seq<nat>) {
    forall i, j :: 0 <= i < j < |ps| ==> ps[i] < ps[j]
  }

  /** The groups are in the order of their first items, which stand at `ps`. */
  ghost predicate ByFirst(items: seq<Item>, groups: seq<Group>, ps: seq<nat>) {
    |ps| == |groups| && Rising(ps) && forall i :: 0 <= i < |groups| ==> From(items, groups[i].items, ps[i])
  }

  /** What is merged so far stands between the groups left alone, at the place of its first one. */
  ghost predicate Between(items: seq<Item>, os: seq<nat>, at: int, target: Group, tp: nat)
    requires at <= |os|
  {
    if at < 0 then target.items == []
    else
      From(items, target.items, tp) && (forall i :: 0 <= i < at ==> os[i] < tp) && forall i :: at <= i < |os| ==> tp < os[i]
  }

  /** The pass has seen `k` groups: all their first items stand before those of the rest. */
  ghost predicate Behind(os: seq<nat>, at: int, tp: nat, ps: seq<nat>, k: nat)
    requires k <= |ps|
  {
    (forall i, m :: 0 <= i < |os| && k <= m < |ps| ==> os[i] < ps[m]) && (at >= 0 ==> forall m :: k <= m < |ps| ==> tp < ps[m])
  }

  ghost predicate Placed(items: seq<Item>, others: seq<Group>, os: seq<nat>, at: int, target: Group, tp: nat,
                         ps: seq<nat>, k: nat)
  {
    k <= |ps| && ByFirst(items, others, os) && at <= |os| && Between(items, os, at, target, tp) && Behind(os, at, tp, ps, k)
  }

  lemma PlacedKeep(items: seq<Item>, others: seq<Group>, os: seq<nat>, at: int, target: Group, tp: nat,
                   groups: seq<Group>, ps: seq<nat>, k: nat)
    requires ByFirst(items, groups, ps) && k < |groups| && Placed(items, others, os, at, target, tp, ps, k)
    ensures Placed(items, others + [groups[k]], os + [ps[k]], at, target, tp, ps, k + 1)
  {
  }

  lemma PlacedAbsorb(items: seq<Item>, others: seq<Group>, os: seq<nat>, at: int, target: Group, tp: nat,
                     groups: seq<Group>, ps: seq<nat>, k: nat)
    requires ByFirst(items, groups, ps) && k < |groups| && Placed(items, others, os, at, target, tp, ps, k)
    ensures Placed(items, others, os, if at < 0 then |others| else at, Absorb(target, groups[k]),
                   if at < 0 then ps[k] else tp, ps, k + 1)
  {
    var both := target.items + groups[k].items;
    var p := if at < 0 then ps[k] else tp;
    forall x | x in both ensures x in items[p..] {
      if x in groups[k].items {
        assert x in items[ps[k]..];
        LaterIn(items, p, ps[k], x);
      }
    }
    assert From(items, both, p);
  }

  lemma LaterIn(items: seq<Item>, p: nat, q: nat, x: Item)
    requires p <= q <= |items| && x in items[q..]
    ensures x in items[p..]
  {
    assert items[p..][q - p..] == items[q..];
  }

  lemma FromMore(items: seq<Item>, item: Item, members: seq<Item>, p: nat)
    requires From(items, members, p)
    ensures From(items + [item], members, p) && From(items + [item], members + [item], p)
  {
    assert (items + [item])[p..] == items[p..] + [item];
  }

  lemma RisingInsert(os: seq<nat>, place: nat, p: nat)
    requires Rising(os) && place <= |os|
    requires (forall i :: 0 <= i < place ==> os[i] < p) && forall i :: place <= i < |os| ==> p < os[i]
    ensures Rising(os[..place] + [p] + os[place..])
  {
    var qs := os[..place] + [p] + os[place..];
    forall i, j | 0 <= i < j < |qs| ensures qs[i] < qs[j] {
      assert qs[i] == if i < place then os[i] else if i == place then p else os[i - 1];
      assert qs[j] == if j < place then os[j] else if j == place then p else os[j - 1];
    }
  }

  lemma FirstInsert(items: seq<Item>, others: seq<Group>, os: seq<nat>, place: nat, g: Group, p: nat)
    requires ByFirst(items, others, os) && place <= |os| && From(items, g.items, p)
    requires (forall i :: 0 <= i < place ==> os[i] < p) && forall i :: place <= i < |os| ==> p < os[i]
    ensures ByFirst(items, others[..place] + [g] + others[place..], os[..place] + [p] + os[place..])
  {
    var gs, qs := others[..place] + [g] + others[place..], os[..place] + [p] + os[place..];
    RisingInsert(os, place, p);
    forall i | 0 <= i < |gs| ensures From(items, gs[i].items, qs[i]) {
      if i < place {
        assert gs[i] == others[i] && qs[i] == os[i];
      } else if i > place {
        assert gs[i] == others[i - 1] && qs[i] == os[i - 1];
      }
    }
  }

  lemma FirstMore(items: seq<Item>, item: Item, groups: seq<Group>, ps: seq<nat>)
    requires ByFirst(items, groups, ps)
    ensures ByFirst(items + [item], groups, ps)
  {
    forall i | 0 <= i < |groups| ensures From(items + [item], groups[i].items, ps[i]) {
      FromMore(items, item, groups[i].items, ps[i]);
    }
  }

  lemma PlacedDone(items: seq<Item>, item: Item, others: seq<Group>, os: seq<nat>, at: int, target: Group, tp: nat,
                   ps: seq<nat>, urls: seq<string>) returns (qs: seq<nat>)
    requires Placed(items, others, os, at, target, tp, ps, |ps|)
    ensures var place := if at < 0 then |others| else at; var g := Group(target.items + [item], urls);
      ByFirst(items + [item], others[..place] + [g] + others[place..], qs)
  {
    var place := if at < 0 then |others| else at;
    var p := if at < 0 then |items| else tp;
    var g := Group(target.items + [item], urls);
    FirstMore(items, item, others, os);
    if at >= 0 {
      FromMore(items, item, target.items, tp);
    } else {
      assert (items + [item])[|items|..] == [item] && g.items == [item];
      assert forall i :: 0 <= i < |os| ==> From(items, others[i].items, os[i]);
    }
    FirstInsert(items + [item], others, os, place, g, p);
    qs := os[..place] + [p] + os[place..];
  }

  /** One step of the grouping: `item` joins every group it touches, or starts one. */
  method AddItem(groups: seq<Group>, item: Item, env: Urls, ghost items: seq<Item>, ghost ps: seq<nat>)
    returns (r: seq<Group>, ghost qs: seq<nat>)
    requires GroupsOk(groups, env) && ByFirst(items, groups, ps)
    ensures GroupsOk(r, env) && ByFirst(items + [item], r, qs)
    ensures multiset(Flat(r)) == multiset(Flat(groups)) + multiset{item}
  {
    var urls := UrlsOf(item);
    var others, target := [], Group([], []);
    var at := -1;
    ghost var os, tp: nat := [], 0;
    for k := 0 to |groups|
      invariant PassOk(others, target, groups, k, item, env)
      invariant -1 <= at <= |others|
      invariant Accounted(others, target, groups, k) && Placed(items, others, os, at, target, tp, ps, k)
    {
      var g := groups[k];
      MatchIsTouch(g, item, env);
      AccountedNext(others, target, groups, k);
      if AnyShared(urls, g.urls, env) {
        AbsorbKeepsPass(others, target, groups, k, item, env);
        PlacedAbsorb(items, others, os, at, target, tp, groups, ps, k);
        if at < 0 {
          at := |others|;
          tp := ps[k];
        }
        target := Absorb(target, g);
      } else {
        KeepKeepsPass(others, target, groups, k, item, env);
        PlacedKeep(items, others, os, at, target, tp, groups, ps, k);
        others, os := others + [g], os + [ps[k]];
      }
    }
    assert groups[..|groups|] == groups;
    qs := PlacedDone(items, item, others, os, at, target, tp, ps, target.urls + urls);
    if at < 0 { at := |others|; }
    var joined := Group(target.items + [item], target.urls + urls);
    PassDone(others, target, groups, item, env, at);
    r := others[..at] + [joined] + others[at..];
    FlatInsert(others, joined, at);
  }

  lemma FlatInsert(others: seq<Group>, g: Group, at: nat)
    requires at <= |others|
    ensures multiset(Flat(others[..at] + [g] + others[at..])) == multiset(Flat(others)) + multiset(g.items)
  {
    FlatConcat(others[..at] + [g], others[at..]);
    FlatConcat(others[..at], [g]);
    FlatConcat(others[..at], others[at..]);
    assert others == others[..at] + others[at..];
    assert [g][1..] == [] && g.items + [] == g.items;
  }

  lemma OneMoreItem(items: seq<Item>, n: nat)
    requires n < |items|
    ensures items[..n + 1] == items[..n] + [items[n]]
    ensures multiset(items[..n + 1]) == multiset(items[..n]) + multiset{items[n]}
  {
    assert items[..n + 1] == items[..n] + [items[n]];
  }

  method GroupItems(items: seq<Item>, env: Urls) returns (groups: seq<Group>)
    ensures GroupsOk(groups, env) && multiset(Flat(groups)) == multiset(items)
    ensures exists ps :: ByFirst(items, groups, ps)
  {
    groups := [];
    ghost var ps: seq<nat> := [];
    assert items[..0] == [];
    for n := 0 to |items|
      invariant GroupsOk(groups, env) && multiset(Flat(groups)) == multiset(items[..n])
      invariant ByFirst(items[..n], groups, ps)
    {
      OneMoreItem(items, n);
      groups, ps := AddItem(groups, items[n], env, items[..n], ps);
    }
    assert items[..|items|] == items;
    assert ByFirst(items, groups, ps);
  }

  // ----- The groups are the connected components -----

  ghost function All(groups: seq<Group>): set<Item> {
    set x | x in Flat(groups)
  }

  ghost predicate Together(groups: seq<Group>, x: Item, y: Item) {
    exists i :: 0 <= i < |groups| && x in groups[i].items && y in groups[i].items
  }

  lemma {:induction false} InSomeGroup(groups: seq<Group>, x: Item)
    ensures x in Flat(groups) <==> exists i :: 0 <= i < |groups| && x in groups[i].items
  {
    if groups != [] {
      InSomeGroup(groups[1..], x);
      if i :| 0 <= i < |groups[1..]| && x in groups[1..][i].items { assert x in groups[i + 1].items; }
      if i :| 0 <= i < |groups| && x in groups[i].items {
        if i > 0 { assert x in groups[1..][i - 1].items; }
      }
    }
  }

  /** A chain of shared files never leaves the group it starts in. */
  lemma {:induction false} PathStays(groups: seq<Group>, i: nat, p: seq<Item>, env: Urls)
    requires GroupsOk(groups, env) && i < |groups| && IsPath(p, All(groups), env) && p[0] in groups[i].items
    ensures p[|p| - 1] in groups[i].items
    decreases |p|
  {
    if |p| > 1 {
      var q := p[..|p| - 1];
      assert IsPath(q, All(groups), env);
      PathStays(groups, i, q, env);
      var last := p[|p| - 1];
      InSomeGroup(groups, last);
      var j :| 0 <= j < |groups| && last in groups[j].items;
      assert Shares(q[|q| - 1], last, env) by { assert Shares(p[|p| - 2], p[|p| - 1], env); }
    }
  }

  /** Two manifests end up together exactly when a chain of shared files connects them. */
  lemma GroupsAreComponents(groups: seq<Group>, x: Item, y: Item, env: Urls)
    requires GroupsOk(groups, env) && x in All(groups) && y in All(groups)
    ensures Together(groups, x, y) <==> Connected(All(groups), x, y, env)
  {
    if Together(groups, x, y) {
      var i :| 0 <= i < |groups| && x in groups[i].items && y in groups[i].items;
      forall z | z in Members(groups[i]) ensures z in All(groups) { InSomeGroup(groups, z); }
      ConnectedMore(Members(groups[i]), All(groups), x, y, env);
    }
    if Connected(All(groups), x, y, env) {
      var p :| IsPath(p, All(groups), env) && p[0] == x && p[|p| - 1] == y;
      InSomeGroup(groups, x);
      var i :| 0 <= i < |groups| && x in groups[i].items;
      PathStays(groups, i, p, env);
    }
  }

  /** The order in which the manifests came does not matter. */
  lemma OrderIndependent(a: seq<Group>, b: seq<Group>, x: Item, y: Item, env: Urls)
    requires GroupsOk(a, env) && GroupsOk(b, env) && multiset(Flat(a)) == multiset(Flat(b))
    requires x in Flat(a) && y in Flat(a)
    ensures Together(a, x, y) <==> Together(b, x, y)
  {
    assert forall z :: z in Flat(a) <==> z in multiset(Flat(a));
    assert forall z :: z in Flat(b) <==> z in multiset(Flat(b));
    assert All(a) == All(b);
    GroupsAreComponents(a, x, y, env);
    GroupsAreComponents(b, x, y, env);
  }

  // ----- Merging the tracks of a group -----

  const DEFAULT_PERIOD := "__default__"

  /** Period and file of a track, as the source joins them. */
  function TrackKey(t: Track, env: Urls): string {
    (if t.period == "" then DEFAULT_PERIOD else t.period) + "|" + env.fileKey(t.url)
  }

  /** The last track with this key. */
  function LastWith(ts: seq<Track>, key: string, env: Urls): Option<Track> {
    if ts == [] then None
    else
      var t := ts[|ts| - 1];
      if TrackKey(t, env) == key then Some(t) else LastWith(ts[..|ts| - 1], key, env)
  }

  ghost predicate DistinctKeys(ts: seq<Track>, env: Urls) {
    forall i, j :: 0 <= i < j < |ts| ==> TrackKey(ts[i], env) != TrackKey(ts[j], env)
  }

  /** One track per key, each the last one listed for it. */
  ghost predicate KeepsLast(merged: seq<Track>, all: seq<Track>, env: Urls) {
    DistinctKeys(merged, env) &&
    (forall t :: t in merged ==> LastWith(all, TrackKey(t, env), env) == Some(t)) &&
    forall t :: t in all ==> exists m :: m in merged && TrackKey(m, env) == TrackKey(t, env)
  }

  /** The position of a key in an insertion-ordered list of entries, or -1. */
  function Find(ts: seq<Track>, key: string, env: Urls): (k: int)
    ensures -1 <= k < |ts|
    ensures k >= 0 ==> TrackKey(ts[k], env) == key
    ensures k < 0 ==> forall i :: 0 <= i < |ts| ==> TrackKey(ts[i], env) != key
  {
    if ts == [] then -1
    else if TrackKey(ts[0], env) == key then 0
    else
      var k := Find(ts[1..], key, env);
      if k < 0 then -1 else k + 1
  }

  /** Setting a key replaces its entry in place or appends one. */
  function Put(entries: seq<Track>, t: Track, env: Urls): seq<Track> {
    var k := Find(entries, TrackKey(t, env), env);
    if k < 0 then entries + [t] else entries[k := t]
  }

  lemma PutIsLast(entries: seq<Track>, all: seq<Track>, t: Track, env: Urls)
    requires KeepsLast(entries, all, env)
    ensures DistinctKeys(Put(entries, t, env), env)
    ensures forall m :: m in Put(entries, t, env) ==> LastWith(all + [t], TrackKey(m, env), env) == Some(m)
  {
    var k, r := Find(entries, TrackKey(t, env), env), Put(entries, t, env);
    assert (all + [t])[..|all|] == all;
    forall m | m in r ensures LastWith(all + [t], TrackKey(m, env), env) == Some(m) {
      if m != t && k >= 0 {
        var i :| 0 <= i < |r| && r[i] == m;
        assert i != k && m == entries[i];
      }
    }
  }

  lemma PutKeepsKeys(entries: seq<Track>, t: Track, u: Track, env: Urls)
    requires u == t || exists m :: m in entries && TrackKey(m, env) == TrackKey(u, env)
    ensures exists m :: m in Put(entries, t, env) && TrackKey(m, env) == TrackKey(u, env)
  {
    var k, r := Find(entries, TrackKey(t, env), env), Put(entries, t, env);
    assert t in r by { assert r[if k < 0 then |entries| else k] == t; }
    if u != t {
      var m :| m in entries && TrackKey(m, env) == TrackKey(u, env);
      var i :| 0 <= i < |entries| && entries[i] == m;
      if i != k { assert r[i] == m; }
    }
  }

  lemma PutKeepsLast(entries: seq<Track>, all: seq<Track>, t: Track, env: Urls)
    requires KeepsLast(entries, all, env)
    ensures KeepsLast(Put(entries, t, env), all + [t], env)
  {
    PutIsLast(entries, all, t, env);
    forall u | u in all + [t] ensures exists m :: m in Put(entries, t, env) && TrackKey(m, env) == TrackKey(u, env) {
      PutKeepsKeys(entries, t, u, env);
    }
  }

  // ----- Sorting -----

  /** Video tracks: higher first, then more bandwidth. */
  predicate VideoOrder(a: Track, b: Track) {
    if a.height != b.height then a.height > b.height else a.bandwidth >= b.bandwidth
  }

  predicate AudioOrder(a: Track, b: Track) {
    a.bandwidth >= b.bandwidth
  }

  function TrackOrder(byHeight: bool): (Track, Track) -> bool {
    if byHeight then VideoOrder else AudioOrder
  }

  lemma TrackOrderOk(byHeight: bool)
    ensures Preorder(TrackOrder(byHeight))
  {
  }

  lemma KeepsLastSorted(a: seq<Track>, b: seq<Track>, all: seq<Track>, env: Urls)
    requires KeepsLast(a, all, env) && multiset(a) == multiset(b)
    ensures KeepsLast(b, all, env)
  {
    assert forall t :: t in a <==> t in multiset(a);
    assert forall t :: t in b <==> t in multiset(b);
    forall i, j | 0 <= i < j < |b| ensures TrackKey(b[i], env) != TrackKey(b[j], env) {
      if TrackKey(b[i], env) == TrackKey(b[j], env) {
        assert LastWith(all, TrackKey(b[i], env), env) == Some(b[i]) by { assert b[i] in a; }
        assert b[i] == b[j] by { assert b[j] in a; }
        TwiceIn(b, i, j);
        OnceIn(a, b[i], env);
      }
    }
  }

  lemma TwiceIn(b: seq<Track>, i: nat, j: nat)
    requires i < j < |b| && b[i] == b[j]
    ensures multiset(b)[b[i]] >= 2
  {
    assert b == b[..i] + [b[i]] + b[i + 1..j] + [b[j]] + b[j + 1..];
  }

  lemma {:induction false} OnceIn(a: seq<Track>, t: Track, env: Urls)
    requires DistinctKeys(a, env)
    ensures multiset(a)[t] <= 1
  {
    if a != [] {
      OnceIn(a[1..], t, env);
      assert a == [a[0]] + a[1..];
      if a[0] == t {
        assert forall k :: 0 <= k < |a[1..]| ==> a[1..][k] != t;
      }
    }
  }

  /** `byFile.set`. */
  method PutTrack(entries: seq<Track>, t: Track, env: Urls, ghost all: seq<Track>) returns (r: seq<Track>)
    requires KeepsLast(entries, all, env)
    ensures KeepsLast(r, all + [t], env)
  {
    PutKeepsLast(entries, all, t, env);
    var k := Find(entries, TrackKey(t, env), env);
    r := if k < 0 then entries + [t] else entries[k := t];
  }

  /** `byFile.set` for every track of one list. */
  method PutAll(entries: seq<Track>, list: seq<Track>, env: Urls, ghost all: seq<Track>) returns (r: seq<Track>)
    requires KeepsLast(entries, all, env)
    ensures KeepsLast(r, all + list, env)
  {
    r := entries;
    assert all + list[..0] == all;
    for i := 0 to |list|
      invariant KeepsLast(r, all + list[..i], env)
    {
      assert all + list[..i + 1] == (all + list[..i]) + [list[i]];
      r := PutTrack(r, list[i], env, all + list[..i]);
    }
    assert list[..|list|] == list;
  }

  method MergeTracks(lists: seq<seq<Track>>, byHeight: bool, env: Urls) returns (r: seq<Track>)
    ensures KeepsLast(r, Flatten(lists), env) && Sorted(r, TrackOrder(byHeight))
  {
    var entries: seq<Track> := [];
    for n := 0 to |lists|
      invariant KeepsLast(entries, Flatten(lists[..n]), env)
    {
      FlattenSnoc(lists, n);
      entries := PutAll(entries, lists[n], env, Flatten(lists[..n]));
    }
    assert lists[..|lists|] == lists;
    r := Sort(entries, TrackOrder(byHeight));
    TrackOrderOk(byHeight);
    Sorts(entries, TrackOrder(byHeight));
    KeepsLastSorted(entries, r, Flatten(lists), env);
  }

  // ----- The merged manifest of a group -----

  datatype Merged = Merged(
    url: string, video: seq<Track>, audio: seq<Track>, index: nat, key: string, memberKeys: seq<string>, members: seq<Item>)

  predicate NotNewer(x: Item, y: Item) {
    x.index <= y.index
  }

  function TracksOf(x: Item, video: bool): seq<Track> {
    if video then x.manifest.video else x.manifest.audio
  }

  function Lists(xs: seq<Item>, video: bool): seq<seq<Track>> {
    seq(|xs|, i requires 0 <= i < |xs| => TracksOf(xs[i], video))
  }

  /** `t` is the track of its key in the newest member that lists the key. */
  ghost predicate FromNewest(t: Track, members: seq<Item>, video: bool, env: Urls) {
    exists i :: NewestAt(Lists(members, video), i, TrackKey(t, env), Some(t), env)
  }

  ghost predicate NewestAt(lists: seq<seq<Track>>, i: nat, key: string, found: Option<Track>, env: Urls) {
    i < |lists| && LastWith(lists[i], key, env) == found &&
    forall j :: i < j < |lists| ==> LastWith(lists[j], key, env) == None
  }

  lemma {:induction false} LastWithConcat(a: seq<Track>, b: seq<Track>, key: string, env: Urls)
    ensures LastWith(a + b, key, env) ==
              if LastWith(b, key, env).Some? then LastWith(b, key, env) else LastWith(a, key, env)
    decreases |b|
  {
    if b == [] {
      assert a + b == a;
    } else {
      assert (a + b)[..|a + b| - 1] == a + b[..|b| - 1];
      LastWithConcat(a, b[..|b| - 1], key, env);
    }
  }

  lemma StillNewest(lists: seq<seq<Track>>, n: nat, i: nat, key: string, t: Option<Track>, env: Urls)
    requires |lists| == n + 1 && NewestAt(lists[..n], i, key, t, env) && LastWith(lists[n], key, env).None?
    ensures NewestAt(lists, i, key, t, env)
  {
    assert forall j :: 0 <= j < n ==> lists[..n][j] == lists[j];
  }

  lemma {:induction false} LastIsNewest(lists: seq<seq<Track>>, key: string, env: Urls) returns (i: nat)
    requires LastWith(Flatten(lists), key, env).Some?
    ensures NewestAt(lists, i, key, LastWith(Flatten(lists), key, env), env)
    decreases |lists|
  {
    var n := |lists| - 1;
    FlattenSnoc(lists, n);
    assert lists[..n + 1] == lists;
    LastWithConcat(Flatten(lists[..n]), lists[n], key, env);
    if LastWith(lists[n], key, env).Some? {
      i := n;
    } else {
      i := LastIsNewest(lists[..n], key, env);
      StillNewest(lists, n, i, key, LastWith(Flatten(lists), key, env), env);
    }
  }

  /** Every track of every member has its key in the merged list, once, with the newest member's track. */
  ghost predicate MergeOk(r: seq<Track>, members: seq<Item>, video: bool, env: Urls) {
    DistinctKeys(r, env) && Sorted(r, TrackOrder(video)) &&
    (forall t :: t in r ==> FromNewest(t, members, video, env)) &&
    forall i :: 0 <= i < |members| ==> KeepsKeysOf(r, TracksOf(members[i], video), env)
  }

  ghost predicate KeepsKeysOf(r: seq<Track>, ts: seq<Track>, env: Urls) {
    forall t :: t in ts ==> exists m :: m in r && TrackKey(m, env) == TrackKey(t, env)
  }

  lemma {:induction false} InLists(lists: seq<seq<Track>>, i: nat, t: Track)
    requires i < |lists| && t in lists[i]
    ensures t in Flatten(lists)
  {
    if i > 0 {
      InLists(lists[1..], i - 1, t);
    }
  }

  lemma MergeIsOk(r: seq<Track>, members: seq<Item>, video: bool, env: Urls)
    requires KeepsLast(r, Flatten(Lists(members, video)), env) && Sorted(r, TrackOrder(video))
    ensures MergeOk(r, members, video, env)
  {
    var lists := Lists(members, video);
    forall t | t in r ensures FromNewest(t, members, video, env) {
      var i := LastIsNewest(lists, TrackKey(t, env), env);
    }
    forall i | 0 <= i < |members| ensures KeepsKeysOf(r, TracksOf(members[i], video), env) {
      forall t | t in TracksOf(members[i], video) ensures t in Flatten(lists) {
        InLists(lists, i, t);
      }
    }
  }

  /** Members from old to new; the newest one's tracks, URL and index, the oldest one's key. */
  ghost predicate MergedOk(r: Merged, env: Urls) {
    r.members != [] && Sorted(r.members, NotNewer) &&
    MergeOk(r.video, r.members, true, env) && MergeOk(r.audio, r.members, false, env) && r.key == r.members[0].key &&
    (var newest := r.members[|r.members| - 1]; r.index == newest.index && r.url == newest.url) &&
    |r.memberKeys| == |r.members| && forall i :: 0 <= i < |r.members| ==> r.memberKeys[i] == r.members[i].key
  }

  /** One group as one manifest: the newest member's tracks, URL and index, the oldest one's key. */
  method MergeGroup(g: Group, env: Urls) returns (r: Merged)
    requires g.items != []
    ensures multiset(r.members) == multiset(g.items) && MergedOk(r, env)
  {
    assert Preorder(NotNewer);
    Sorts(g.items, NotNewer);
    var members := Sort(g.items, NotNewer);
    var video := MergeTracks(Lists(members, true), true, env);
    var audio := MergeTracks(Lists(members, false), false, env);
    MergeIsOk(video, members, true, env);
    MergeIsOk(audio, members, false, env);
    r := Merged(members[|members| - 1].url, video, audio, members[|members| - 1].index, members[0].key,
                seq(|members|, i requires 0 <= i < |members| => members[i].key), members);
  }

  function AllMembers(merged: seq<Merged>): seq<Item> {
    if merged == [] then [] else AllMembers(merged[..|merged| - 1]) + merged[|merged| - 1].members
  }

  ghost predicate MergedTogether(merged: seq<Merged>, x: Item, y: Item) {
    exists i :: 0 <= i < |merged| && x in merged[i].members && y in merged[i].members
  }

  /** One entry for each group, with the same members. */
  ghost predicate OneForEach(merged: seq<Merged>, groups: seq<Group>, n: nat)
    requires n <= |groups|
  {
    |merged| == n && forall i :: 0 <= i < n ==> multiset(merged[i].members) == multiset(groups[i].items)
  }

  lemma SameTogether(merged: seq<Merged>, groups: seq<Group>, x: Item, y: Item)
    requires OneForEach(merged, groups, |groups|)
    ensures MergedTogether(merged, x, y) <==> Together(groups, x, y)
  {
    forall i, z | 0 <= i < |groups| ensures z in merged[i].members <==> z in groups[i].items {
      assert z in merged[i].members <==> z in multiset(merged[i].members);
      assert z in groups[i].items <==> z in multiset(groups[i].items);
    }
  }

  ghost function Every(items: seq<Item>): set<Item> {
    set x | x in items
  }

  ghost predicate AllMergedOk(merged: seq<Merged>, env: Urls) {
    forall i :: 0 <= i < |merged| ==> MergedOk(merged[i], env)
  }

  lemma OneMoreEach(merged: seq<Merged>, groups: seq<Group>, k: nat, r: Merged)
    requires k < |groups| && OneForEach(merged, groups, k) && multiset(r.members) == multiset(groups[k].items)
    ensures OneForEach(merged + [r], groups, k + 1)
  {
  }

  lemma MergedMembers(merged: seq<Merged>, groups: seq<Group>, k: nat, r: Merged)
    requires k < |groups| && multiset(AllMembers(merged)) == multiset(Flat(groups[..k]))
    requires multiset(r.members) == multiset(groups[k].items)
    ensures multiset(AllMembers(merged + [r])) == multiset(Flat(groups[..k + 1]))
  {
    assert groups[..k + 1] == groups[..k] + [groups[k]];
    FlatSnoc(groups[..k], groups[k]);
    MembersSnoc(merged, r);
  }

  lemma MembersSnoc(merged: seq<Merged>, r: Merged)
    ensures AllMembers(merged + [r]) == AllMembers(merged) + r.members
  {
    assert (merged + [r])[..|merged|] == merged;
  }

  /** Merging entry by entry keeps every item, and keeps together what is grouped together. */
  method MergeGroups(groups: seq<Group>, env: Urls) returns (merged: seq<Merged>)
    requires GroupsOk(groups, env)
    ensures OneForEach(merged, groups, |groups|) && multiset(AllMembers(merged)) == multiset(Flat(groups))
    ensures AllMergedOk(merged, env)
  {
    merged := [];
    for k := 0 to |groups|
      invariant OneForEach(merged, groups, k) && multiset(AllMembers(merged)) == multiset(Flat(groups[..k]))
      invariant AllMergedOk(merged, env)
    {
      var r := MergeGroup(groups[k], env);
      OneMoreEach(merged, groups, k, r);
      MergedMembers(merged, groups, k, r);
      merged := merged + [r];
    }
    assert groups[..|groups|] == groups;
  }

  /** The entries are in the order in which their first members came. */
  ghost predicate MergedByFirst(items: seq<Item>, merged: seq<Merged>, ps: seq<nat>) {
    |ps| == |merged| && Rising(ps) && forall i :: 0 <= i < |merged| ==> From(items, merged[i].members, ps[i])
  }

  lemma SameFirsts(items: seq<Item>, merged: seq<Merged>, groups: seq<Group>, ps: seq<nat>)
    requires OneForEach(merged, groups, |groups|) && ByFirst(items, groups, ps)
    ensures MergedByFirst(items, merged, ps)
  {
    forall i | 0 <= i < |groups| ensures From(items, merged[i].members, ps[i]) {
      var ms, gs := merged[i].members, groups[i].items;
      assert multiset(ms) == multiset(gs);
      assert forall x :: x in ms <==> x in multiset(ms);
      assert forall x :: x in gs <==> x in multiset(gs);
    }
  }

  /**
   * `groupManifests`: every item is a member of one entry, each entry is its members merged, two items are
   * in one entry exactly when a chain of shared files connects them, and the entries come in the order of
   * their first members.
   */
  method GroupManifests(items: seq<Item>, env: Urls) returns (merged: seq<Merged>)
    ensures multiset(AllMembers(merged)) == multiset(items)
    ensures AllMergedOk(merged, env)
    ensures forall x, y :: x in items && y in items ==>
      (MergedTogether(merged, x, y) <==> Connected(Every(items), x, y, env))
    ensures exists ps :: MergedByFirst(items, merged, ps)
  {
    var groups := GroupItems(items, env);
    ghost var ps :| ByFirst(items, groups, ps);
    merged := MergeGroups(groups, env);
    SameFirsts(items, merged, groups, ps);
    assert All(groups) == Every(items) by {
      assert forall x :: x in Flat(groups) <==> x in multiset(Flat(groups));
    }
    forall x, y | x in items && y in items ensures MergedTogether(merged, x, y) <==> Connected(Every(items), x, y, env) {
      SameTogether(merged, groups, x, y);
      GroupsAreComponents(groups, x, y, env);
    }
  }

  /** The first and the last share nothing, and yet every grouping of the three puts them together. */
  ghost predicate JoinedByTheMiddle(x: Item, y: Item, z: Item, env: Urls) {
    Shares(x, y, env) && Shares(y, z, env) && !Shares(x, z, env) &&
    forall groups :: GroupsOk(groups, env) && multiset(Flat(groups)) == multiset{x, y, z} ==> Together(groups, x, z)
  }

  lemma TogetherThrough(groups: seq<Group>, x: Item, y: Item, z: Item, env: Urls)
    requires GroupsOk(groups, env) && multiset(Flat(groups)) == multiset{x, y, z}
    requires Shares(x, y, env) && Shares(y, z, env)
    ensures Together(groups, x, z)
  {
    var all := All(groups);
    forall i | i in multiset{x, y, z} ensures i in all {
      assert i in multiset(Flat(groups));
    }
    ConnectedSelf(all, x, env);
    ConnectedStep(all, x, x, y, env);
    ConnectedStep(all, x, y, z, env);
    GroupsAreComponents(groups, x, z, env);
  }

  lemma ThreeManifests() returns (x: Item, y: Item, z: Item, env: Urls)
    ensures Shares(x, y, env) && Shares(y, z, env) && !Shares(x, z, env)
  {
    env := Urls(u => "d/f", k => true, u => if u == "c" then "2" else "1", u => if u == "a" then "1" else "2");
    var m := (u: string) => Item(Manifest([Track(u, "", 0, 0)], []), u, 0, u);
    x, y, z := m("a"), m("b"), m("c");
    assert UrlsOf(x) == ["a"] && UrlsOf(y) == ["b"] && UrlsOf(z) == ["c"];
    assert SameFile("a", "b", env) && SameFile("b", "c", env) && !SameFile("a", "c", env);
  }

  /** The relation that groups manifests is not transitive, so grouping needs the chains. */
  lemma SharingIsNotTransitive()
    ensures exists x: Item, y: Item, z: Item, env: Urls :: JoinedByTheMiddle(x, y, z, env)
  {
    var x, y, z, env := ThreeManifests();
    forall groups | GroupsOk(groups, env) && multiset(Flat(groups)) == multiset{x, y, z} ensures Together(groups, x, z) {
      TogetherThrough(groups, x, y, z, env);
    }
    assert JoinedByTheMiddle(x, y, z, env);
  }
}
