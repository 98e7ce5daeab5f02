/** Batched remote dispatch (fluxDown/utils/download-dispatch.ts). */
module Dispatch {
  import opened Options
  import opened Sequences

  // ----- Bounded concurrency -----

  datatype Worker = Idle | Busy(index: nat) | Finished

  ghost predicate Distinct(ws: seq<Worker>) {
    forall i, j :: 0 <= i < j < |ws| && ws[i].Busy? && ws[j].Busy? ==> ws[i].index != ws[j].index
  }

  function Count(ws: seq<Worker>): nat {
    if ws == [] then 0 else (if ws[0].Busy? then 1 else 0) + Count(ws[1..])
  }

  lemma {:induction false} CountBound(ws: seq<Worker>)
    ensures Count(ws) <= |ws|
  {
    if ws != [] {
      CountBound(ws[1..]);
    }
  }

  /**
   * One run of `mapWithConcurrency`: the workers share `next` and `results` and are scheduled in any
   * order between their awaits.
   */
  class Run<R> {
    const total: nat
    const concurrency: nat
    var next: nat
    var results: seq<Option<R>>
    var workers: seq<Worker>
    /** Some call of the mapped function was rejected. */
    var rejected: bool
    /** Indices in the order the function was called with them, and what the calls returned. */
    ghost var calls: seq<nat>
    ghost var returned: map<nat, R>

    ghost predicate Valid()
      reads this
    {
      |results| == total && next <= total && |workers| <= concurrency && Distinct(workers) &&
      calls == seq(next, i => i) &&
      (forall i :: i in returned ==> i < next && results[i] == Some(returned[i])) &&
      (forall i :: 0 <= i < total && i !in returned ==> results[i] == None) &&
      (forall w :: 0 <= w < |workers| && workers[w].Busy? ==> workers[w].index < next && workers[w].index !in returned) &&
      (forall w :: 0 <= w < |workers| && workers[w].Finished? && !rejected ==> next == total) &&
      (!rejected ==> forall i :: 0 <= i < next && i !in returned ==> exists w :: 0 <= w < |workers| && workers[w] == Busy(i))
    }

    constructor (total: nat, concurrency: nat)
      ensures Valid() && this.total == total && this.concurrency == concurrency && next == 0 && calls == []
      ensures |workers| == if concurrency < total then concurrency else total
    {
      this.total, this.concurrency := total, concurrency;
      next, rejected := 0, false;
      results := seq(total, _ => None);
      workers := seq(if concurrency < total then concurrency else total, _ => Idle);
      calls, returned := [], map[];
    }

    /** A worker at the head of its loop: takes the next index or ends. */
    method Advance(w: nat)
      requires Valid() && w < |workers| && workers[w].Idle?
      modifies this`next, this`workers, this`calls
      ensures Valid() && |workers| == |old(workers)|
      ensures if old(next) < total then workers[w] == Busy(old(next)) && calls == old(calls) + [old(next)]
              else workers[w] == Finished && calls == old(calls)
    {
      ghost var before := workers;
      if next < total {
        calls := calls + [next];
        workers := workers[w := Busy(next)];
        next := next + 1;
      } else {
        workers := workers[w := Finished];
      }
      assert forall i, v :: 0 <= v < |before| && before[v] == Busy(i) && v != w ==> workers[v] == Busy(i);
    }

    /** The awaited call of a worker returns. */
    method Return(w: nat, value: R)
      requires Valid() && w < |workers| && workers[w].Busy?
      modifies this`results, this`workers, this`returned
      ensures Valid() && |workers| == |old(workers)| && workers[w] == Idle
      ensures returned == old(returned)[old(workers)[w].index := value]
    {
      ghost var before := workers;
      results := results[workers[w].index := Some(value)];
      returned := returned[workers[w].index := value];
      workers := workers[w := Idle];
      assert forall i, v :: 0 <= v < |before| && before[v] == Busy(i) && v != w ==> workers[v] == Busy(i);
    }

    /** The awaited call of a worker is rejected: the worker ends, and so does the whole run. */
    method Reject(w: nat)
      requires Valid() && w < |workers| && workers[w].Busy?
      modifies this`workers, this`rejected
      ensures Valid() && rejected && |workers| == |old(workers)|
    {
      rejected := true;
      workers := workers[w := Finished];
    }

    /** At any moment every index has been called at most once, in order, and the calls under way keep to the limit. */
    lemma CallsOnce(i: nat, j: nat)
      requires Valid() && i < j < |calls|
      ensures calls[i] < calls[j] < total
      ensures Count(workers) <= concurrency
    {
      CountBound(workers);
    }

    /** `Promise.all` over the workers: every index was called, and the results stand in input order. */
    method Gather() returns (r: Option<seq<R>>)
      requires Valid() && (forall w :: 0 <= w < |workers| ==> workers[w].Finished?) && (workers == [] ==> total == 0)
      ensures r.None? <==> rejected
      ensures r.Some? ==> next == total && |r.value| == total &&
                          forall i :: 0 <= i < total ==> i in returned && r.value[i] == returned[i]
    {
      if rejected { return None; }
      if |workers| > 0 { assert workers[0].Finished?; }
      assert forall i :: 0 <= i < total ==> i in returned;
      var rs := results;
      assert |rs| == total && forall i :: 0 <= i < total ==> rs[i].Some?;
      return Some(seq(total, i requires 0 <= i < total && |rs| == total && rs[i].Some? => rs[i].value));
    }
  }

  // ----- Splitting a batch into requests -----

  datatype Item = Item(
    url: string, cookies: string, referrer: string, headers: map<string, string>,
    audioUrl: string, filename: string, mimeType: string, verb: string, body: string, fileSize: int)

  /** What a batched request shares; the source's JSON text of it is injective. */
  datatype Context = Context(cookies: string, referrer: string, headers: map<string, string>)

  predicate HasOwnFields(x: Item) {
    x.audioUrl != "" || x.filename != "" || x.mimeType != "" || x.verb != "" || x.body != "" || x.fileSize > 0
  }

  function ContextOf(x: Item): Context {
    Context(x.cookies, x.referrer, x.headers)
  }

  function ContextKey(x: Item): Option<Context> {
    if HasOwnFields(x) then None else Some(ContextOf(x))
  }

  datatype Group = Group(key: Context, items: seq<Item>)

  function GroupItems(gs: seq<Group>): seq<Item> {
    if gs == [] then [] else gs[0].items + GroupItems(gs[1..])
  }

  /** A group holds mergeable items of its own context. */
  ghost predicate GroupOk(g: Group) {
    g.items != [] && forall i :: 0 <= i < |g.items| ==> ContextKey(g.items[i]) == Some(g.key)
  }

  /** One group per context. */
  ghost predicate GroupsOk(gs: seq<Group>) {
    (forall g :: 0 <= g < |gs| ==> GroupOk(gs[g])) &&
    forall g, h :: 0 <= g < h < |gs| ==> gs[g].key != gs[h].key
  }

  function Find(gs: seq<Group>, key: Context): (k: int)
    ensures -1 <= k < |gs|
    ensures k >= 0 ==> gs[k].key == key
    ensures k < 0 ==> forall g :: 0 <= g < |gs| ==> gs[g].key != key
  {
    if gs == [] then -1
    else if gs[0].key == key then 0
    else
      var k := Find(gs[1..], key);
      if k < 0 then -1 else k + 1
  }

  function Put(gs: seq<Group>, key: Context, x: Item): seq<Group> {
    var k := Find(gs, key);
    if k < 0 then gs + [Group(key, [x])] else gs[k := Group(key, gs[k].items + [x])]
  }

  lemma {:induction false} PutItems(gs: seq<Group>, key: Context, x: Item)
    ensures multiset(GroupItems(Put(gs, key, x))) == multiset(GroupItems(gs)) + multiset{x}
    decreases |gs|
  {
    if gs == [] {
      assert Put(gs, key, x) == [Group(key, [x])];
      assert [Group(key, [x])][1..] == [];
    } else if gs[0].key == key {
      assert Put(gs, key, x)[1..] == gs[1..];
    } else {
      assert Put(gs, key, x)[0] == gs[0];
      assert Put(gs, key, x)[1..] == Put(gs[1..], key, x);
      PutItems(gs[1..], key, x);
    }
  }

  lemma PutOk(gs: seq<Group>, key: Context, x: Item)
    requires GroupsOk(gs) && ContextKey(x) == Some(key)
    ensures GroupsOk(Put(gs, key, x))
  {
    var k := Find(gs, key);
    if k >= 0 {
      assert GroupOk(gs[k]);
      assert GroupOk(Group(key, gs[k].items + [x]));
    } else {
      assert GroupOk(Group(key, [x]));
    }
  }

  /** Adding one item to either side of the split. */
  lemma Accounted(a: multiset<Item>, b: multiset<Item>, whole: multiset<Item>, x: Item)
    requires a + b == whole
    ensures (a + multiset{x}) + b == whole + multiset{x} && a + (b + multiset{x}) == whole + multiset{x}
  {
  }

  method GroupByContext(items: seq<Item>) returns (groups: seq<Group>, singles: seq<Item>)
    ensures GroupsOk(groups) && forall i :: 0 <= i < |singles| ==> HasOwnFields(singles[i])
    ensures multiset(GroupItems(groups)) + multiset(singles) == multiset(items)
  {
    groups, singles := [], [];
    for n := 0 to |items|
      invariant GroupsOk(groups) && forall i :: 0 <= i < |singles| ==> HasOwnFields(singles[i])
      invariant multiset(GroupItems(groups)) + multiset(singles) == multiset(items[..n])
    {
      var x := items[n];
      assert items[..n + 1] == items[..n] + [x];
      var key := ContextKey(x);
      Accounted(multiset(GroupItems(groups)), multiset(singles), multiset(items[..n]), x);
      if key.None? {
        singles := singles + [x];
      } else {
        PutItems(groups, key.value, x);
        PutOk(groups, key.value, x);
        groups := Put(groups, key.value, x);
      }
    }
    assert items[..|items|] == items;
  }

  /** A unit of several items: one shared context and no field of its own. */
  ghost predicate Shareable(unit: seq<Item>) {
    unit != [] &&
    (|unit| > 1 ==> forall i :: 0 <= i < |unit| ==> ContextKey(unit[i]) == Some(ContextOf(unit[0])))
  }

  /** What a unit could be merged on. */
  function UnitKey(unit: seq<Item>): set<Context> {
    if unit == [] || ContextKey(unit[0]).None? then {} else {ContextOf(unit[0])}
  }

  function UnitKeys(units: seq<seq<Item>>): set<Context> {
    if units == [] then {} else UnitKey(units[0]) + UnitKeys(units[1..])
  }

  /** No unit could be merged with a later one. */
  ghost predicate Apart(units: seq<seq<Item>>) {
    units == [] || (UnitKey(units[0]) !! UnitKeys(units[1..]) && Apart(units[1..]))
  }

  lemma {:induction false} ApartConcat(a: seq<seq<Item>>, b: seq<seq<Item>>)
    requires Apart(a) && Apart(b) && UnitKeys(a) !! UnitKeys(b)
    ensures Apart(a + b) && UnitKeys(a + b) == UnitKeys(a) + UnitKeys(b)
  {
    if a == [] {
      assert a + b == b;
    } else {
      assert (a + b)[1..] == a[1..] + b && (a + b)[0] == a[0];
      ApartConcat(a[1..], b);
    }
  }

  function Alone(singles: seq<Item>): (units: seq<seq<Item>>)
    ensures |units| == |singles| && forall k :: 0 <= k < |singles| ==> units[k] == [singles[k]]
    ensures Flatten(units) == singles
  {
    if singles == [] then [] else
      var rest := Alone(singles[1..]);
      assert ([[singles[0]]] + rest)[1..] == rest;
      [[singles[0]]] + rest
  }

  function Merged(groups: seq<Group>): seq<seq<Item>> {
    if groups == [] then []
    else (if |groups[0].items| == 1 then [] else [groups[0].items]) + Merged(groups[1..])
  }

  function Lone(groups: seq<Group>): seq<Item> {
    if groups == [] then []
    else (if |groups[0].items| == 1 then groups[0].items else []) + Lone(groups[1..])
  }

  lemma {:induction false} MergedAndLone(groups: seq<Group>)
    ensures multiset(Flatten(Merged(groups))) + multiset(Lone(groups)) == multiset(GroupItems(groups))
  {
    if groups != [] {
      MergedAndLone(groups[1..]);
      FlattenConcat(if |groups[0].items| == 1 then [] else [groups[0].items], Merged(groups[1..]));
      assert [groups[0].items][1..] == [];
    }
  }

  function GroupKeys(groups: seq<Group>): set<Context> {
    if groups == [] then {} else {groups[0].key} + GroupKeys(groups[1..])
  }

  lemma {:induction false} KeyAbsent(groups: seq<Group>, key: Context)
    requires forall g :: 0 <= g < |groups| ==> groups[g].key != key
    ensures key !in GroupKeys(groups)
  {
    if groups != [] {
      KeyAbsent(groups[1..], key);
    }
  }

  lemma {:induction false} AloneConcat(a: seq<Item>, b: seq<Item>)
    ensures Alone(a + b) == Alone(a) + Alone(b)
  {
    assert forall k :: 0 <= k < |a| + |b| ==> Alone(a + b)[k] == (Alone(a) + Alone(b))[k];
  }

  lemma HeadUnit(units: seq<seq<Item>>)
    requires |units| == 1
    ensures Apart(units) && UnitKeys(units) == UnitKey(units[0])
  {
    assert units[1..] == [];
  }

  /** Units and loners made from groups keep the groups' keys, each key once. */
  lemma {:induction false} KeysOnce(groups: seq<Group>)
    requires GroupsOk(groups)
    ensures Apart(Merged(groups)) && Apart(Alone(Lone(groups)))
    ensures UnitKeys(Merged(groups)) !! UnitKeys(Alone(Lone(groups)))
    ensures UnitKeys(Merged(groups)) + UnitKeys(Alone(Lone(groups))) <= GroupKeys(groups)
  {
    if groups != [] {
      var g, rest := groups[0], groups[1..];
      assert GroupOk(g);
      KeysOnce(rest);
      KeyAbsent(rest, g.key);
      HeadUnit([g.items]);
      assert UnitKey(g.items) == {g.key};
      if |g.items| == 1 {
        AloneConcat(g.items, Lone(rest));
        assert Alone(g.items) == [g.items];
        ApartConcat([g.items], Alone(Lone(rest)));
        assert [] + Merged(rest) == Merged(rest);
      } else {
        ApartConcat([g.items], Merged(rest));
        assert [] + Lone(rest) == Lone(rest);
      }
    }
  }

  lemma {:induction false} MergedShareable(groups: seq<Group>)
    requires forall g :: 0 <= g < |groups| ==> GroupOk(groups[g])
    ensures forall u :: 0 <= u < |Merged(groups)| ==> Shareable(Merged(groups)[u])
  {
    if groups != [] {
      assert GroupOk(groups[0]);
      MergedShareable(groups[1..]);
    }
  }

  lemma {:induction false} OwnKeys(own: seq<Item>)
    requires forall i :: 0 <= i < |own| ==> HasOwnFields(own[i])
    ensures Apart(Alone(own)) && UnitKeys(Alone(own)) == {}
  {
    if own != [] {
      OwnKeys(own[1..]);
      AloneConcat([own[0]], own[1..]);
      assert [own[0]] + own[1..] == own && Alone(own)[1..] == Alone(own[1..]);
    }
  }

  lemma MergedStep(groups: seq<Group>, g: nat)
    requires g < |groups|
    ensures Merged(groups[g..]) == (if |groups[g].items| == 1 then [] else [groups[g].items]) + Merged(groups[g + 1..])
    ensures Lone(groups[g..]) == (if |groups[g].items| == 1 then groups[g].items else []) + Lone(groups[g + 1..])
  {
    assert groups[g..][0] == groups[g] && groups[g..][1..] == groups[g + 1..];
  }

  method SplitGroups(groups: seq<Group>, own: seq<Item>) returns (units: seq<seq<Item>>, singles: seq<Item>)
    ensures units == Merged(groups) && singles == own + Lone(groups)
  {
    units, singles := [], own;
    assert groups[0..] == groups;
    for g := 0 to |groups|
      invariant units + Merged(groups[g..]) == Merged(groups)
      invariant singles + Lone(groups[g..]) == own + Lone(groups)
    {
      MergedStep(groups, g);
      ghost var u, s := units, singles;
      if |groups[g].items| == 1 {
        singles := singles + groups[g].items;
        assert singles + Lone(groups[g + 1..]) == s + Lone(groups[g..]);
        assert units + Merged(groups[g + 1..]) == u + Merged(groups[g..]);
      } else {
        units := units + [groups[g].items];
        assert units + Merged(groups[g + 1..]) == u + Merged(groups[g..]);
        assert singles + Lone(groups[g + 1..]) == s + Lone(groups[g..]);
      }
    }
    assert groups[|groups|..] == [] && units + [] == units && singles + [] == singles;
  }

  lemma UnitsHoldItems(groups: seq<Group>, own: seq<Item>)
    ensures multiset(Flatten(Merged(groups) + Alone(own + Lone(groups)))) == multiset(GroupItems(groups)) + multiset(own)
  {
    var m, l := Merged(groups), Lone(groups);
    FlattenConcat(m, Alone(own + l));
    MergedAndLone(groups);
    assert multiset(own + l) == multiset(own) + multiset(l);
  }

  lemma UnitsApart(groups: seq<Group>, own: seq<Item>)
    requires GroupsOk(groups) && forall i :: 0 <= i < |own| ==> HasOwnFields(own[i])
    ensures Apart(Merged(groups) + Alone(own + Lone(groups)))
  {
    var l := Alone(Lone(groups));
    AloneConcat(own, Lone(groups));
    KeysOnce(groups);
    OwnKeys(own);
    ApartConcat(Alone(own), l);
    ApartConcat(Merged(groups), Alone(own) + l);
  }

  lemma UnitsShareable(merged: seq<seq<Item>>, singles: seq<Item>)
    requires forall u :: 0 <= u < |merged| ==> Shareable(merged[u])
    ensures var units := merged + Alone(singles); forall u :: 0 <= u < |units| ==> Shareable(units[u])
  {
    forall k | 0 <= k < |singles| ensures Shareable(Alone(singles)[k]) {
      assert Alone(singles)[k] == [singles[k]];
    }
  }

  method AppendAlone(merged: seq<seq<Item>>, singles: seq<Item>) returns (units: seq<seq<Item>>)
    ensures units == merged + Alone(singles)
  {
    units := merged;
    for k := 0 to |singles|
      invariant |units| == |merged| + k && units[..|merged|] == merged
      invariant forall j :: 0 <= j < k ==> units[|merged| + j] == [singles[j]]
    {
      units := units + [[singles[k]]];
    }
  }

  /**
   * Groups of at least two items become one request each, everything else a request of its own: the
   * units hold exactly the items, only items of one context share a unit, and no merge was missed.
   */
  method Units(items: seq<Item>) returns (units: seq<seq<Item>>)
    ensures multiset(Flatten(units)) == multiset(items)
    ensures forall u :: 0 <= u < |units| ==> Shareable(units[u])
    ensures Apart(units)
  {
    var groups, own := GroupByContext(items);
    var merged, singles := SplitGroups(groups, own);
    units := AppendAlone(merged, singles);
    UnitsHoldItems(groups, own);
    MergedShareable(groups);
    UnitsShareable(merged, singles);
    UnitsApart(groups, own);
  }

  // ----- Reporting -----

  datatype Response = Response(success: bool, message: string)

  /** The answer to the caller: one request's own answer, or a summary counted in items. */
  datatype Answer = Forwarded(response: Response) | AllFailed(message: string) | Sent(sent: nat, failed: nat)

  /** Sizes of the successful units, added up. */
  function SentCount(units: seq<seq<Item>>, results: seq<Response>): nat
    requires |results| == |units|
  {
    if units == [] then 0 else (if results[0].success then |units[0]| else 0) + SentCount(units[1..], results[1..])
  }

  lemma {:induction false} SentWithinTotal(units: seq<seq<Item>>, results: seq<Response>)
    requires |results| == |units| && forall u :: 0 <= u < |units| ==> units[u] != []
    ensures SentCount(units, results) <= |Flatten(units)|
    ensures SentCount(units, results) == |Flatten(units)| <==> forall i :: 0 <= i < |results| ==> results[i].success
    ensures SentCount(units, results) == 0 <==> forall i :: 0 <= i < |results| ==> !results[i].success
  {
    if units != [] {
      SentWithinTotal(units[1..], results[1..]);
      assert forall i :: 1 <= i < |results| ==> results[i] == results[1..][i - 1];
      assert forall i :: 0 <= i < |results| - 1 ==> results[1..][i] == results[i + 1];
    }
  }

  /**
   * The answer for a batch: a single request answers for itself; otherwise items are counted through
   * their units, and nothing that succeeded is ever reported as a failed batch.
   */
  method Summarize(units: seq<seq<Item>>, results: seq<Response>, total: nat) returns (r: Answer)
    requires |results| == |units| && |Flatten(units)| == total && forall u :: 0 <= u < |units| ==> units[u] != []
    ensures r.Forwarded? <==> |results| == 1
    ensures r.Forwarded? ==> r.response == results[0]
    ensures r.AllFailed? <==> |results| != 1 && forall i :: 0 <= i < |results| ==> !results[i].success
    ensures r.AllFailed? && |results| > 0 ==> r.message == results[0].message
    ensures r.Sent? ==> r.sent == SentCount(units, results) > 0 && r.sent + r.failed == total
    ensures r.Sent? ==> (r.failed == 0 <==> forall i :: 0 <= i < |results| ==> results[i].success)
  {
    if |results| == 1 {
      return Forwarded(results[0]);
    }
    var succeeded := 0;
    for i := 0 to |units|
      invariant SentCount(units, results) == succeeded + SentCount(units[i..], results[i..])
    {
      assert units[i..][1..] == units[i + 1..] && results[i..][1..] == results[i + 1..];
      if results[i].success {
        succeeded := succeeded + |units[i]|;
      }
    }
    SentWithinTotal(units, results);
    if succeeded == 0 {
      r := AllFailed(if |results| == 0 then "All items failed" else results[0].message);
    } else {
      r := Sent(succeeded, total - succeeded);
    }
  }
}
