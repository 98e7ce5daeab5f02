/** Rule evaluation (fluxDown/rules/engine.ts): matching, activation, ordering and the extension index. */
module Engine {
  import opened Options
  import opened Sorting
  import Glob

  const REGEX_INPUT_CAP := 2048

  datatype Tier = Local | Official | Plugin | Community | Builtin

  function TierRank(t: Tier): nat {
    match t case Local => 0 case Official => 1 case Plugin => 2 case Community => 3 case Builtin => 4
  }

  /** Code of the host environment: regular expressions, host patterns, lower-casing. */
  datatype Env = Env(
    regexTest: (string, string) -> bool,
    parseHost: string -> Option<HostPattern>,
    lower: string -> string)

  datatype HostPattern = HostPattern(domain: string, suffix: string, exact: bool)

  datatype HeaderSpec = HeaderSpec(name: string, regex: string)

  datatype MatchSpec = MatchSpec(
    resourceType: Option<seq<string>>, status: Option<(int, int)>, minSize: Option<int>, maxSize: Option<int>,
    attachment: Option<bool>, host: Option<seq<string>>, pageHost: Option<seq<string>>, ext: Option<seq<string>>,
    hasExt: Option<bool>, mime: Option<seq<string>>, pathRegex: Option<string>, url: Option<seq<string>>,
    header: Option<seq<HeaderSpec>>)

  datatype Ctx = Ctx(
    lowerUrl: string, host: string, pageHost: string, path: string, ext: string, mime: string,
    resourceType: Option<string>, status: Option<int>, size: int, attachment: bool, headers: map<string, string>)

  // ----- Matching -----

  predicate HostMatches(host: string, p: HostPattern) {
    host == p.domain || (!p.exact && Glob.EndsWith(host, p.suffix))
  }

  predicate AnyHost(list: seq<string>, host: string, env: Env) {
    host != "" && exists p | p in list :: env.parseHost(p).Some? && HostMatches(host, env.parseHost(p).value)
  }

  /** Regex test; rules outside the trusted tiers never see inputs beyond the cap. */
  predicate RegexHolds(source: string, capped: bool, s: string, env: Env) {
    (!capped || |s| <= REGEX_INPUT_CAP) && env.regexTest(source, s)
  }

  predicate MimeHolds(spec: string, mime: string) {
    if spec != "" && spec[|spec| - 1] == '*' then spec[..|spec| - 1] <= mime else spec == mime
  }

  function ExtSet(list: seq<string>, env: Env): set<string> {
    set e | e in list :: env.lower(e)
  }

  /** All the conditions of a spec; an absent one holds. */
  predicate SpecHolds(m: MatchSpec, capped: bool, c: Ctx, env: Env) {
    (m.resourceType.Some? ==> c.resourceType.Some? && c.resourceType.value in m.resourceType.value) &&
    (m.status.Some? ==> c.status.Some? && m.status.value.0 <= c.status.value <= m.status.value.1) &&
    (m.minSize.Some? ==> c.size <= 0 || c.size >= m.minSize.value) &&
    (m.maxSize.Some? ==> c.size <= 0 || c.size <= m.maxSize.value) &&
    (m.attachment.Some? ==> c.attachment == m.attachment.value) &&
    (m.host.Some? ==> AnyHost(m.host.value, c.host, env)) &&
    (m.pageHost.Some? ==> AnyHost(m.pageHost.value, c.pageHost, env)) &&
    (m.ext.Some? ==> c.ext != "" && c.ext in ExtSet(m.ext.value, env)) &&
    (m.hasExt.Some? ==> (c.ext != "") == m.hasExt.value) &&
    (m.mime.Some? ==> c.mime != "" && exists s | s in m.mime.value :: MimeHolds(env.lower(s), c.mime)) &&
    (m.pathRegex.Some? ==> RegexHolds(m.pathRegex.value, capped, c.path, env)) &&
    (m.url.Some? ==> exists g | g in m.url.value :: Glob.GlobMatches(g, c.lowerUrl)) &&
    (m.header.Some? ==> forall h | h in m.header.value ::
      env.lower(h.name) in c.headers && RegexHolds(h.regex, capped, c.headers[env.lower(h.name)], env))
  }

  /** The main spec holds and no exclusion does. */
  predicate RuleMatches(m: MatchSpec, exclude: seq<MatchSpec>, tier: Tier, c: Ctx, env: Env) {
    var capped := tier != Builtin && tier != Official;
    SpecHolds(m, capped, c, env) && !exists e | e in exclude :: SpecHolds(e, capped, c, env)
  }

  /** All but the rules shipped with the extension or signed by its makers. */
  predicate Untrusted(tier: Tier) {
    tier == Local || tier == Plugin || tier == Community
  }

  /** One more exclusion takes away exactly what it matches. */
  lemma OneMoreExclusion(m: MatchSpec, exclude: seq<MatchSpec>, e: MatchSpec, tier: Tier, c: Ctx, env: Env)
    ensures RuleMatches(m, exclude + [e], tier, c, env) <==>
      RuleMatches(m, exclude, tier, c, env) && !SpecHolds(e, Untrusted(tier), c, env)
  {
    var capped := Untrusted(tier);
    assert capped == (tier != Builtin && tier != Official);
    var more := exclude + [e];
    assert e in more && forall x :: x in more <==> x in exclude || x == e;
    if exists x :: x in exclude && SpecHolds(x, capped, c, env) {
      var x :| x in exclude && SpecHolds(x, capped, c, env);
      assert x in more;
    }
  }

  lemma ShortInputsSpec(m: MatchSpec, c: Ctx, env: Env, other: Env)
    requires other == env.(regexTest := other.regexTest)
    requires forall x, y :: |y| <= 2048 ==> env.regexTest(x, y) == other.regexTest(x, y)
    ensures SpecHolds(m, true, c, env) <==> SpecHolds(m, true, c, other)
  {
  }

  /**
   * What a regex engine makes of inputs beyond 2048 characters is of no consequence to the rules of others,
   * and their path regexes match no longer path.
   */
  lemma ShortInputsOnly(m: MatchSpec, exclude: seq<MatchSpec>, tier: Tier, c: Ctx, env: Env, other: Env)
    requires Untrusted(tier) && other == env.(regexTest := other.regexTest)
    requires forall x, y :: |y| <= 2048 ==> env.regexTest(x, y) == other.regexTest(x, y)
    ensures RuleMatches(m, exclude, tier, c, env) <==> RuleMatches(m, exclude, tier, c, other)
    ensures m.pathRegex.Some? && |c.path| > 2048 ==> !RuleMatches(m, exclude, tier, c, env)
  {
    ShortInputsSpec(m, c, env, other);
    forall e ensures SpecHolds(e, true, c, env) <==> SpecHolds(e, true, c, other) {
      ShortInputsSpec(e, c, env, other);
    }
  }

  // ----- Rules -----

  datatype Action = Resource(kind: string, confidence: Option<string>) | Ignore | OtherAction

  datatype Rule = Rule(
    id: string, version: int, tier: Tier, enabled: bool, priority: int, requiresImages: bool, classifyOnly: bool,
    spec: MatchSpec, exclude: seq<MatchSpec>, action: Action)

  /** A rule with its position among all active rules before sorting. */
  datatype Active = Active(rule: Rule, order: nat)

  predicate Matches(r: Rule, c: Ctx, env: Env) {
    RuleMatches(r.spec, r.exclude, r.tier, c, env)
  }

  // ----- Activation -----

  datatype Revocation = Soft | Hard

  datatype RevEntry = RevEntry(ruleId: string, max: Option<int>, action: Revocation)

  datatype RevDoc = RevDoc(sequence: int, expiresAt: int, entries: seq<RevEntry>)

  datatype Override = Override(enabled: bool, ack: Option<int>)

  datatype Pack = Pack(tier: Tier, tooNew: bool, expiresAt: Option<int>, rules: seq<Rule>)

  datatype Settings = Settings(
    overrides: map<string, Override>, revocations: Option<RevDoc>,
    sniffImages: bool, communityEnabled: bool, now: int)

  datatype Status = IsActive | Disabled | Paused | SoftRevoked | HardRevoked | Expired | EngineTooNew

  predicate Hits(e: RevEntry, rule: Rule) {
    e.ruleId == rule.id && (e.max.None? || rule.version <= e.max.value)
  }

  predicate Revoked(entries: seq<RevEntry>, rule: Rule, action: Revocation) {
    exists e | e in entries :: Hits(e, rule) && e.action == action
  }

  method RevocationOf(entries: seq<RevEntry>, rule: Rule) returns (found: Option<Revocation>)
    ensures found == if Revoked(entries, rule, Hard) then Some(Hard)
                     else if Revoked(entries, rule, Soft) then Some(Soft) else None
  {
    found := None;
    for i := 0 to |entries|
      invariant forall k :: 0 <= k < i && Hits(entries[k], rule) ==> entries[k].action == Soft
      invariant found == if Revoked(entries[..i], rule, Soft) then Some(Soft) else None
    {
      var e := entries[i];
      if Hits(e, rule) {
        if e.action == Hard {
          assert e in entries;
          return Some(Hard);
        }
        found := Some(Soft);
      }
      assert entries[..i + 1] == entries[..i] + [e];
    }
    assert entries[..|entries|] == entries;
  }

  function EntriesOf(s: Settings): seq<RevEntry> {
    if s.revocations.Some? then s.revocations.value.entries else []
  }

  predicate RevocationsFresh(s: Settings) {
    s.revocations.Some? && s.revocations.value.expiresAt > s.now
  }

  /** Why every rule of a pack is held back, if it is. */
  function PackPause(p: Pack, s: Settings): Option<Status> {
    if p.tier != Community then None
    else if !s.communityEnabled then Some(Paused)
    else if p.expiresAt.Some? && !(p.expiresAt.value > s.now) then Some(Expired)
    else if !RevocationsFresh(s) then Some(Expired)
    else None
  }

  predicate Acknowledged(rule: Rule, s: Settings) {
    rule.id in s.overrides && s.revocations.Some? && s.overrides[rule.id].enabled &&
    s.overrides[rule.id].ack == Some(s.revocations.value.sequence)
  }

  /** A rule is live: nothing revokes, pauses or disables it. */
  predicate Live(rule: Rule, p: Pack, s: Settings) {
    !p.tooNew && PackPause(p, s).None? &&
    !Revoked(EntriesOf(s), rule, Hard) &&
    (Revoked(EntriesOf(s), rule, Soft) ==> Acknowledged(rule, s)) &&
    Enabled(rule, s)
  }

  predicate Enabled(rule: Rule, s: Settings) {
    if rule.id in s.overrides then s.overrides[rule.id].enabled else rule.enabled
  }

  /** Neither the engine's version nor a hard revocation settles the matter. */
  predicate Considered(rule: Rule, p: Pack, s: Settings) {
    !p.tooNew && !Revoked(EntriesOf(s), rule, Hard)
  }

  method StatusOf(rule: Rule, p: Pack, s: Settings) returns (status: Status)
    ensures status == IsActive <==> Live(rule, p, s)
    ensures status == EngineTooNew <==> p.tooNew
    ensures status == HardRevoked <==> !p.tooNew && Revoked(EntriesOf(s), rule, Hard)
    ensures Considered(rule, p, s) && PackPause(p, s).Some? ==> status == PackPause(p, s).value
    ensures status == SoftRevoked <==>
      Considered(rule, p, s) && PackPause(p, s).None? && Revoked(EntriesOf(s), rule, Soft) && !Acknowledged(rule, s)
    ensures status == Disabled <==>
      Considered(rule, p, s) && PackPause(p, s).None? && (Revoked(EntriesOf(s), rule, Soft) ==> Acknowledged(rule, s)) &&
      !Enabled(rule, s)
  {
    if p.tooNew { return EngineTooNew; }
    var paused := PackPause(p, s);
    var rev := RevocationOf(EntriesOf(s), rule);
    if rev == Some(Hard) { return HardRevoked; }
    if paused.Some? { return paused.value; }
    if rev == Some(Soft) && !Acknowledged(rule, s) { return SoftRevoked; }
    return if Enabled(rule, s) then IsActive else Disabled;
  }

  /** Something in the revocation document names the rule in this version. */
  ghost predicate Named(s: Settings, rule: Rule, action: Revocation) {
    s.revocations.Some? &&
    exists e :: e in s.revocations.value.entries && e.ruleId == rule.id && e.action == action &&
                (e.max.Some? ==> rule.version <= e.max.value)
  }

  /** The user's own word on the rule, or else the rule's. */
  predicate SwitchedOn(rule: Rule, s: Settings) {
    (rule.id in s.overrides && s.overrides[rule.id].enabled) || (rule.id !in s.overrides && rule.enabled)
  }

  /**
   * When a rule is live, field by field: community packs only while they are switched on, unexpired and
   * under an unexpired revocation document; a soft revocation only once it is acknowledged in the
   * document's own sequence.
   */
  lemma LiveExactly(rule: Rule, p: Pack, s: Settings)
    ensures Live(rule, p, s) <==>
      !p.tooNew && SwitchedOn(rule, s) && !Named(s, rule, Hard) &&
      (p.tier == Community ==>
         s.communityEnabled && (p.expiresAt == None || p.expiresAt.value > s.now) &&
         s.revocations.Some? && s.revocations.value.expiresAt > s.now) &&
      (Named(s, rule, Soft) ==>
         rule.id in s.overrides && s.overrides[rule.id] == Override(true, Some(s.revocations.value.sequence)))
  {
    forall action ensures Revoked(EntriesOf(s), rule, action) <==> Named(s, rule, action) {
      if Named(s, rule, action) {
        var e :| e in s.revocations.value.entries && e.ruleId == rule.id && e.action == action &&
                 (e.max.Some? ==> rule.version <= e.max.value);
        assert e in EntriesOf(s) && Hits(e, rule);
      }
      if Revoked(EntriesOf(s), rule, action) {
        var e :| e in EntriesOf(s) && Hits(e, rule) && e.action == action;
        assert e in s.revocations.value.entries;
      }
    }
  }

  // ----- Order -----

  /** Tier first, then higher priority, then position. */
  predicate Before(a: Active, b: Active) {
    TierRank(a.rule.tier) < TierRank(b.rule.tier) ||
    (TierRank(a.rule.tier) == TierRank(b.rule.tier) &&
     (a.rule.priority > b.rule.priority || (a.rule.priority == b.rule.priority && a.order < b.order)))
  }

  /** The order in the tiers' own names: local, official, plugin, community, builtin. */
  lemma EvaluationOrder(a: Active, b: Active)
    ensures a.rule.tier != b.rule.tier ==>
      (Before(a, b) <==> a.rule.tier == Local || b.rule.tier == Builtin ||
                         (a.rule.tier == Official && b.rule.tier != Local) ||
                         (a.rule.tier == Plugin && b.rule.tier == Community))
    ensures a.rule.tier == b.rule.tier && a.rule.priority != b.rule.priority ==>
      (Before(a, b) <==> a.rule.priority > b.rule.priority)
    ensures a.rule.tier == b.rule.tier && a.rule.priority == b.rule.priority ==> (Before(a, b) <==> a.order < b.order)
  {
  }

  ghost predicate Ordered(s: seq<Active>) {
    forall i, j :: 0 <= i < j < |s| ==> Before(s[i], s[j])
  }

  predicate DistinctOrders(s: seq<Active>) {
    forall i, j | 0 <= i < j < |s| :: s[i].order != s[j].order
  }

  predicate NotAfter(a: Active, b: Active) {
    !Before(b, a)
  }

  /** Sorting rules with distinct positions: same rules, in evaluation order. */
  lemma SortSorts(s: seq<Active>)
    requires DistinctOrders(s)
    ensures Ordered(Sort(s, NotAfter)) && multiset(Sort(s, NotAfter)) == multiset(s)
  {
    var sorted := Sort(s, NotAfter);
    assert Preorder(NotAfter);
    Sorts(s, NotAfter);
    forall i, j | 0 <= i < j < |sorted| ensures Before(sorted[i], sorted[j]) {
      if sorted[i].order == sorted[j].order {
        SameOrderTwice(s, sorted, i, j);
      }
    }
  }

  lemma SameOrderTwice(s: seq<Active>, t: seq<Active>, i: nat, j: nat)
    requires DistinctOrders(s) && multiset(s) == multiset(t) && i < j < |t|
    ensures t[i].order != t[j].order
  {
    if t[i].order == t[j].order {
      assert t[i] in multiset(s) && t[j] in multiset(s);
      assert t == t[..i] + [t[i]] + t[i + 1..j] + [t[j]] + t[j + 1..];
      var p :| 0 <= p < |s| && s[p] == t[i];
      assert t[j] == t[i] by {
        var q :| 0 <= q < |s| && s[q] == t[j];
        assert p == q;
      }
      OnceIn(s, p);
    }
  }

  lemma OnceIn(s: seq<Active>, p: nat)
    requires DistinctOrders(s) && p < |s|
    ensures multiset(s)[s[p]] == 1
  {
    assert s == s[..p] + [s[p]] + s[p + 1..];
    assert s[p] !in s[..p] && s[p] !in s[p + 1..];
  }

  ghost predicate Among(active: seq<Active>, r: Rule) {
    exists k :: 0 <= k < |active| && active[k].rule == r
  }

  /** The live ones among the rules of a pack, in order. */
  function LiveIn(rules: seq<Rule>, p: Pack, s: Settings): seq<Rule> {
    if rules == [] then []
    else
      var last := rules[|rules| - 1];
      LiveIn(rules[..|rules| - 1], p, s) + (if Live(last, p, s) then [last] else [])
  }

  /** The live rules of all packs, pack by pack. */
  function LiveRules(packs: seq<Pack>, s: Settings): seq<Rule> {
    if packs == [] then []
    else
      var last := packs[|packs| - 1];
      LiveRules(packs[..|packs| - 1], s) + LiveIn(last.rules, last, s)
  }

  function Numbered(rules: seq<Rule>): seq<Active> {
    seq(|rules|, k requires 0 <= k < |rules| => Active(rules[k], k))
  }

  lemma NumberedSnoc(rules: seq<Rule>, r: Rule)
    ensures Numbered(rules + [r]) == Numbered(rules) + [Active(r, |rules|)]
  {
  }

  /** The live rules of one pack join the active ones. */
  method ActivatePack(active: seq<Active>, ghost before: seq<Rule>, p: Pack, s: Settings) returns (more: seq<Active>)
    requires active == Numbered(before)
    ensures more == Numbered(before + LiveIn(p.rules, p, s))
  {
    more := active;
    assert before + LiveIn(p.rules[..0], p, s) == before;
    for j := 0 to |p.rules|
      invariant more == Numbered(before + LiveIn(p.rules[..j], p, s))
    {
      var rule := p.rules[j];
      ghost var live := LiveIn(p.rules[..j], p, s);
      assert p.rules[..j + 1][..j] == p.rules[..j];
      var status := StatusOf(rule, p, s);
      if status == IsActive {
        NumberedSnoc(before + live, rule);
        assert before + (live + [rule]) == before + live + [rule];
        more := more + [Active(rule, |more|)];
      } else {
        assert live + [] == live;
      }
    }
    assert p.rules[..|p.rules|] == p.rules;
  }

  /** The live rules in pack order, numbered. */
  method Activate(packs: seq<Pack>, s: Settings) returns (active: seq<Active>)
    ensures active == Numbered(LiveRules(packs, s))
  {
    active := [];
    for i := 0 to |packs|
      invariant active == Numbered(LiveRules(packs[..i], s))
    {
      assert packs[..i + 1][..i] == packs[..i];
      active := ActivatePack(active, LiveRules(packs[..i], s), packs[i], s);
    }
    assert packs[..|packs|] == packs;
  }

  lemma {:induction false} LiveInPack(rules: seq<Rule>, p: Pack, s: Settings, r: Rule)
    ensures r in LiveIn(rules, p, s) <==> r in rules && Live(r, p, s)
  {
    if rules != [] {
      var n := |rules| - 1;
      assert rules == rules[..n] + [rules[n]];
      LiveInPack(rules[..n], p, s, r);
    }
  }

  /** Exactly the rules that some pack supplies and nothing holds back are live. */
  lemma {:induction false} LiveAreSupplied(packs: seq<Pack>, s: Settings, r: Rule)
    ensures r in LiveRules(packs, s) <==> Supplied(packs, r, s)
  {
    if packs != [] {
      var n := |packs| - 1;
      var last := packs[n];
      assert packs == packs[..n] + [last];
      LiveAreSupplied(packs[..n], s, r);
      LiveInPack(last.rules, last, s, r);
      if Supplied(packs, r, s) {
        var p :| p in packs && r in p.rules && Live(r, p, s);
        assert p == last || p in packs[..n];
      }
    }
  }

  /** Some pack supplies the rule and nothing holds it back. */
  ghost predicate Supplied(packs: seq<Pack>, r: Rule, s: Settings) {
    exists p :: p in packs && r in p.rules && Live(r, p, s)
  }

  // ----- Lists of rules -----

  function ExtsOf(r: Rule, env: Env): Option<set<string>> {
    if r.spec.ext.Some? then Some(ExtSet(r.spec.ext.value, env)) else None
  }

  /** Rules that could match a URL with this extension. */
  function Bucket(rules: seq<Rule>, ext: string, env: Env): seq<Rule> {
    if rules == [] then []
    else
      var exts := ExtsOf(rules[0], env);
      (if exts.None? || ext in exts.value then [rules[0]] else []) + Bucket(rules[1..], ext, env)
  }

  function WithoutExt(rules: seq<Rule>): seq<Rule> {
    if rules == [] then [] else (if rules[0].spec.ext.None? then [rules[0]] else []) + WithoutExt(rules[1..])
  }

  function Keys(rules: seq<Rule>, env: Env): set<string> {
    if rules == [] then {}
    else (if rules[0].spec.ext.Some? then ExtSet(rules[0].spec.ext.value, env) else {}) + Keys(rules[1..], env)
  }

  /** The plain scan: every rule that matches, in order. */
  function AllMatching(rules: seq<Rule>, c: Ctx, env: Env): seq<Rule> {
    if rules == [] then []
    else (if Matches(rules[0], c, env) then [rules[0]] else []) + AllMatching(rules[1..], c, env)
  }

  function FirstMatching(rules: seq<Rule>, c: Ctx, env: Env): Option<Rule> {
    if rules == [] then None
    else if Matches(rules[0], c, env) then Some(rules[0])
    else FirstMatching(rules[1..], c, env)
  }

  lemma {:induction false} FirstIsHead(rules: seq<Rule>, c: Ctx, env: Env)
    ensures FirstMatching(rules, c, env) ==
              var all := AllMatching(rules, c, env); if all == [] then None else Some(all[0])
  {
    if rules != [] {
      FirstIsHead(rules[1..], c, env);
    }
  }

  /** A rule left out of the bucket cannot match. */
  lemma {:induction false} BucketComplete(rules: seq<Rule>, c: Ctx, env: Env)
    ensures AllMatching(Bucket(rules, c.ext, env), c, env) == AllMatching(rules, c, env)
  {
    if rules != [] {
      var b := Bucket(rules[1..], c.ext, env);
      BucketComplete(rules[1..], c, env);
      assert [] + b == b && ([rules[0]] + b)[1..] == b;
    }
  }

  lemma {:induction false} NoExtComplete(rules: seq<Rule>, c: Ctx, env: Env)
    requires c.ext == "" || c.ext !in Keys(rules, env)
    ensures AllMatching(WithoutExt(rules), c, env) == AllMatching(rules, c, env)
  {
    if rules != [] {
      var b := WithoutExt(rules[1..]);
      NoExtComplete(rules[1..], c, env);
      assert [] + b == b && ([rules[0]] + b)[1..] == b;
    }
  }

  // ----- The extension index -----

  /** Rules bucketed by extension; buckets are built on first use. */
  class ExtIndex {
    const rules: seq<Rule>
    const env: Env
    const keys: set<string>
    const noExt: seq<Rule>
    var byExt: map<string, seq<Rule>>

    ghost predicate Valid()
      reads this
    {
      keys == Keys(rules, env) && noExt == WithoutExt(rules) &&
      forall e :: e in byExt ==> byExt[e] == Bucket(rules, e, env)
    }

    constructor (rules: seq<Rule>, env: Env)
      ensures Valid() && this.rules == rules && this.env == env && byExt == map[]
    {
      this.rules, this.env := rules, env;
      keys, noExt, byExt := Keys(rules, env), WithoutExt(rules), map[];
    }

    method Candidates(ext: string) returns (list: seq<Rule>)
      requires Valid()
      modifies this
      ensures Valid()
      ensures forall c: Ctx :: c.ext == ext ==> AllMatching(list, c, env) == AllMatching(rules, c, env)
      ensures forall e :: e in old(byExt) ==> e in byExt && byExt[e] == old(byExt)[e]
    {
      if ext == "" || ext !in keys {
        list := noExt;
        forall c: Ctx | c.ext == ext ensures AllMatching(list, c, env) == AllMatching(rules, c, env) {
          NoExtComplete(rules, c, env);
        }
        return;
      }
      if ext !in byExt {
        byExt := byExt[ext := Bucket(rules, ext, env)];
      }
      list := byExt[ext];
      forall c: Ctx | c.ext == ext ensures AllMatching(list, c, env) == AllMatching(rules, c, env) {
        BucketComplete(rules, c, env);
      }
    }
  }

  method FirstHit(list: seq<Rule>, c: Ctx, env: Env) returns (r: Option<Rule>)
    ensures r == FirstMatching(list, c, env)
  {
    for i := 0 to |list|
      invariant FirstMatching(list, c, env) == FirstMatching(list[i..], c, env)
    {
      assert list[i..][1..] == list[i + 1..];
      if Matches(list[i], c, env) { return Some(list[i]); }
    }
    return None;
  }

  method AllHits(list: seq<Rule>, c: Ctx, env: Env) returns (hits: seq<Rule>)
    ensures hits == AllMatching(list, c, env)
  {
    hits := [];
    for i := 0 to |list|
      invariant AllMatching(list, c, env) == hits + AllMatching(list[i..], c, env)
    {
      var rest := list[i + 1..];
      assert list[i..][1..] == rest;
      if Matches(list[i], c, env) {
        assert hits + ([list[i]] + AllMatching(rest, c, env)) == hits + [list[i]] + AllMatching(rest, c, env);
        hits := hits + [list[i]];
      }
    }
  }

  // ----- The compiled rule set -----

  datatype Decision = Use(kind: string, confidence: Option<string>, id: string) | Skip(id: string) | NoDecision

  function DecisionOf(r: Option<Rule>): Decision {
    match r
    case None => NoDecision
    case Some(rule) =>
      match rule.action
      case Resource(kind, confidence) => Use(kind, confidence, rule.id)
      case Ignore => Skip(rule.id)
      case OtherAction => NoDecision
  }

  function RulesOf(active: seq<Active>): seq<Rule> {
    seq(|active|, i requires 0 <= i < |active| => active[i].rule)
  }

  predicate IsResponse(r: Rule) {
    r.action.Resource? || r.action.Ignore?
  }

  predicate Participates(r: Rule, images: bool) {
    IsResponse(r) && !r.classifyOnly && !(r.requiresImages && !images)
  }

  predicate Classifies(r: Rule) {
    r.action.Resource? && (r.spec.mime.Some? || r.spec.ext.Some?)
  }

  function Filter(f: Rule -> bool, rules: seq<Rule>): seq<Rule> {
    if rules == [] then [] else (if f(rules[0]) then [rules[0]] else []) + Filter(f, rules[1..])
  }

  /** A serialisable rule of the page-side classifier. */
  datatype ClassifyRule = ClassifyRule(kind: string, tier: Tier, spec: MatchSpec, exclude: Option<seq<MatchSpec>>)

  function Serialize(r: Rule): ClassifyRule
    requires r.action.Resource?
  {
    ClassifyRule(r.action.kind, r.tier, r.spec, if r.exclude == [] then None else Some(r.exclude))
  }

  /** The rule as the page-side context rebuilds it. */
  function Rebuild(c: ClassifyRule): Rule {
    Rule("", 0, c.tier, true, 0, false, false, c.spec, if c.exclude.Some? then c.exclude.value else [],
         Resource(c.kind, None))
  }

  function KindOf(r: Option<Rule>): string {
    if r.Some? && r.value.action.Resource? then r.value.action.kind else "other"
  }

  /** `classify`: the kind named by the first matching rule, over an index of its own. */
  class Classifier {
    const index: ExtIndex

    ghost predicate Valid()
      reads this, index
    {
      index.Valid()
    }

    constructor (rules: seq<Rule>, env: Env)
      ensures Valid() && fresh(index) && index.rules == rules && index.env == env
    {
      index := new ExtIndex(rules, env);
    }

    method Classify(c: Ctx) returns (kind: string)
      requires Valid()
      modifies index
      ensures Valid() && kind == KindOf(FirstMatching(index.rules, c, index.env))
    {
      var list := index.Candidates(c.ext);
      var hit := FirstHit(list, c, index.env);
      FirstIsHead(list, c, index.env);
      FirstIsHead(index.rules, c, index.env);
      return KindOf(hit);
    }
  }

  class CompiledRules {
    const responseIndex: ExtIndex
    const classifier: Classifier
    const classifyList: seq<ClassifyRule>
    const images: bool
    const env: Env
    /** Every live rule in evaluation order. */
    ghost const sorted: seq<Active>

    ghost predicate Valid()
      reads this, responseIndex, classifier, classifier.index
    {
      responseIndex.Valid() && classifier.Valid() &&
      responseIndex.rules == Filter(r => Participates(r, images), RulesOf(sorted)) && responseIndex.env == env &&
      classifier.index.rules == Filter(Classifies, RulesOf(sorted)) && classifier.index.env == env &&
      classifyList == SerializeAll(classifier.index.rules) && Ordered(sorted)
    }

    constructor (packs: seq<Pack>, settings: Settings, env: Env)
      ensures Valid() && this.env == env && images == settings.sniffImages
      ensures multiset(sorted) == multiset(Numbered(LiveRules(packs, settings)))
      ensures forall r :: Among(sorted, r) <==> Supplied(packs, r, settings)
      ensures fresh(responseIndex)
    {
      var active := Activate(packs, settings);
      SortSorts(active);
      var order := Sort(active, NotAfter);
      var response := new ExtIndex(Filter(r => Participates(r, settings.sniffImages), RulesOf(order)), env);
      var classify := new Classifier(Filter(Classifies, RulesOf(order)), env);
      responseIndex, classifier, sorted, images, this.env := response, classify, order, settings.sniffImages, env;
      classifyList := SerializeAll(Filter(Classifies, RulesOf(order)));
      new;
      SameMembers(active, order);
      NumberedMembers(packs, settings);
    }

    method ClassifyResponse(c: Ctx) returns (d: Decision)
      requires Valid()
      modifies responseIndex
      ensures Valid()
      ensures d == DecisionOf(FirstMatching(Filter(r => Participates(r, images), RulesOf(sorted)), c, env))
    {
      var list := responseIndex.Candidates(c.ext);
      var hit := FirstHit(list, c, env);
      FirstIsHead(list, c, env);
      FirstIsHead(responseIndex.rules, c, env);
      return DecisionOf(hit);
    }

    method ExplainResponse(c: Ctx) returns (hits: seq<Rule>)
      requires Valid()
      modifies responseIndex
      ensures Valid()
      ensures hits == AllMatching(Filter(r => Participates(r, images), RulesOf(sorted)), c, env)
    {
      var list := responseIndex.Candidates(c.ext);
      hits := AllHits(list, c, env);
    }
  }

  function SerializeAll(rules: seq<Rule>): seq<ClassifyRule> {
    if rules == [] then []
    else (if rules[0].action.Resource? then [Serialize(rules[0])] else []) + SerializeAll(rules[1..])
  }

  function RebuildAll(list: seq<ClassifyRule>): seq<Rule> {
    if list == [] then [] else [Rebuild(list[0])] + RebuildAll(list[1..])
  }

  lemma NumberedMembers(packs: seq<Pack>, s: Settings)
    ensures forall r :: Among(Numbered(LiveRules(packs, s)), r) <==> Supplied(packs, r, s)
  {
    forall r ensures Among(Numbered(LiveRules(packs, s)), r) <==> Supplied(packs, r, s) {
      LiveAreSupplied(packs, s, r);
      if r in LiveRules(packs, s) {
        var k :| 0 <= k < |LiveRules(packs, s)| && LiveRules(packs, s)[k] == r;
        assert Numbered(LiveRules(packs, s))[k].rule == r;
      }
    }
  }

  lemma SameMembers(a: seq<Active>, b: seq<Active>)
    requires multiset(a) == multiset(b)
    ensures forall r :: Among(a, r) <==> Among(b, r)
  {
    forall r
      ensures Among(a, r) <==> Among(b, r)
    {
      if k :| 0 <= k < |a| && a[k].rule == r { assert a[k] in multiset(b); }
      if k :| 0 <= k < |b| && b[k].rule == r { assert b[k] in multiset(a); }
    }
  }

  /** A classifier restored from the serialised rules answers like the original one. */
  lemma {:induction false} RestoredClassifierAgrees(rules: seq<Rule>, c: Ctx, env: Env)
    requires forall k :: 0 <= k < |rules| ==> rules[k].action.Resource?
    ensures KindOf(FirstMatching(RebuildAll(SerializeAll(rules)), c, env)) == KindOf(FirstMatching(rules, c, env))
  {
    if rules != [] {
      var list := SerializeAll(rules[1..]);
      assert SerializeAll(rules)[1..] == list;
      RestoredClassifierAgrees(rules[1..], c, env);
      assert Matches(Rebuild(Serialize(rules[0])), c, env) == Matches(rules[0], c, env);
    }
  }

  method CreateClassifier(list: seq<ClassifyRule>, env: Env) returns (k: Classifier)
    ensures k.Valid() && fresh(k) && fresh(k.index) && k.index.rules == RebuildAll(list) && k.index.env == env
  {
    k := new Classifier(RebuildAll(list), env);
  }

  lemma {:induction false} FilterHolds(f: Rule -> bool, rules: seq<Rule>)
    ensures forall k :: 0 <= k < |Filter(f, rules)| ==> f(Filter(f, rules)[k]) && Filter(f, rules)[k] in rules
  {
    if rules != [] {
      FilterHolds(f, rules[1..]);
    }
  }

  /** The page-side classifier and the background's `classify` give one answer for every URL and MIME type. */
  method ClassifiersAgree(engine: CompiledRules, c: Ctx) returns (here: string, there: string)
    requires engine.Valid()
    modifies engine.classifier.index
    ensures here == there
  {
    FilterHolds(Classifies, RulesOf(engine.sorted));
    RestoredClassifierAgrees(engine.classifier.index.rules, c, engine.env);
    here := engine.classifier.Classify(c);
    var other := CreateClassifier(engine.classifyList, engine.env);
    there := other.Classify(c);
  }

  // ----- The decision is the least matching rule -----

  /** `a` matches, takes part, and comes before every other such rule. */
  ghost predicate IsWinner(sorted: seq<Active>, a: Active, images: bool, c: Ctx, env: Env) {
    a in sorted && Participates(a.rule, images) && Matches(a.rule, c, env) &&
    forall b :: b in sorted && b != a && Participates(b.rule, images) && Matches(b.rule, c, env) ==> Before(a, b)
  }

  /** The scan finds the rule that is first by tier, priority and position, or nothing when no rule matches. */
  lemma {:induction false} WinnerFound(sorted: seq<Active>, images: bool, c: Ctx, env: Env)
    requires Ordered(sorted)
    ensures match FirstMatching(Filter(r => Participates(r, images), RulesOf(sorted)), c, env)
            case Some(r) => exists a :: IsWinner(sorted, a, images, c, env) && a.rule == r
            case None => forall a :: a in sorted ==> !(Participates(a.rule, images) && Matches(a.rule, c, env))
  {
    if sorted != [] {
      var rest := sorted[1..];
      var f := r => Participates(r, images);
      assert RulesOf(sorted)[1..] == RulesOf(rest);
      assert sorted == [sorted[0]] + rest;
      WinnerFound(rest, images, c, env);
      var a := sorted[0];
      var tail := Filter(f, RulesOf(rest));
      assert ([a.rule] + tail)[1..] == tail && [] + tail == tail;
      if Participates(a.rule, images) && Matches(a.rule, c, env) {
        assert IsWinner(sorted, a, images, c, env);
      } else if FirstMatching(tail, c, env).Some? {
        var w :| IsWinner(rest, w, images, c, env) && w.rule == FirstMatching(tail, c, env).value;
        assert IsWinner(sorted, w, images, c, env);
      }
    }
  }

  lemma SameWinner(s: seq<Active>, t: seq<Active>, a: Active, images: bool, c: Ctx, env: Env)
    requires multiset(s) == multiset(t) && IsWinner(s, a, images, c, env)
    ensures IsWinner(t, a, images, c, env)
  {
    assert forall b :: b in t <==> b in multiset(t);
    assert forall b :: b in s <==> b in multiset(s);
  }

  /** No rule in force matches. */
  ghost predicate NoneMatches(active: seq<Active>, images: bool, c: Ctx, env: Env) {
    forall a :: a in active ==> !(Participates(a.rule, images) && Matches(a.rule, c, env))
  }

  /** A rule that names a kind is used, one that says ignore makes the response skipped, under its id. */
  predicate Decided(d: Decision, r: Rule) {
    (r.action.Resource? && d == Use(r.action.kind, r.action.confidence, r.id)) || (r.action.Ignore? && d == Skip(r.id))
  }

  /**
   * From packs to decision: of the live rules, numbered in pack order, the one that is first by tier,
   * priority and position among those that match decides.
   */
  method Decide(packs: seq<Pack>, settings: Settings, c: Ctx, env: Env) returns (d: Decision)
    ensures var active := Numbered(LiveRules(packs, settings));
      (exists a :: IsWinner(active, a, settings.sniffImages, c, env) && Decided(d, a.rule)) ||
      (NoneMatches(active, settings.sniffImages, c, env) && d == NoDecision)
  {
    var engine := new CompiledRules(packs, settings, env);
    ghost var sorted, active, images := engine.sorted, Numbered(LiveRules(packs, settings)), settings.sniffImages;
    WinnerFound(sorted, images, c, env);
    ghost var found := FirstMatching(Filter(r => Participates(r, images), RulesOf(sorted)), c, env);
    if found.Some? {
      ghost var a :| IsWinner(sorted, a, images, c, env) && a.rule == found.value;
      SameWinner(sorted, active, a, images, c, env);
    } else {
      assert forall a :: a in active ==> a in multiset(sorted);
    }
    d := engine.ClassifyResponse(c);
  }
}
