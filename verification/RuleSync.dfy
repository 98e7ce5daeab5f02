/** Rule-pack synchronisation (fluxDown/background/rule-sync.ts). */
module RuleSync {
  import opened Options

  // ----- Applying one reply -----

  /** A rule pack or revocation document; a sequence that is no number is None. */
  datatype Pack = Pack(sequence: Option<real>, body: string)

  datatype Tier = Official | Community | Plugin

  datatype Stored = Stored(
    official: Option<Pack>, community: Option<Pack>, plugin: Option<Pack>, pluginEpoch: Option<string>,
    revocations: Option<Pack>)

  datatype Document = OfficialDoc | CommunityDoc | RevocationsDoc | PluginDoc

  datatype Reply = Reply(
    official: Option<Pack>, community: Option<Pack>, revocations: Option<Pack>, plugin: Option<Pack>,
    pluginSequence: Option<real>, pluginEpoch: Option<string>, deferred: set<Document>)

  datatype Problem =
    | Rollback(tier: Tier)
    | PackInvalid(tier: Tier)
    | RulesRejected(tier: Tier, count: nat)
    | RevocationsInvalid

  predicate IsInteger(s: Option<real>) {
    s.Some? && s.value == s.value.Floor as real
  }

  predicate Lower(a: Option<real>, b: Option<real>) {
    a.Some? && b.Some? && a.value < b.value
  }

  /**
   * What the extension ships and how it validates: `rules` counts the rejected rules of a pack whose
   * frame is sound, None meaning that validation throws; `revocations` is the shape test.
   */
  datatype Environment = Environment(
    bundledSequence: int, bundledBody: string, rules: (Tier, Pack) -> Option<nat>, revocationShape: Pack -> bool)
  {
    function Bundled(): Pack {
      Pack(Some(bundledSequence as real), bundledBody)
    }

    /** The official pack in force. */
    function Effective(official: Option<Pack>): (pack: Pack)
      ensures pack.sequence.Some? && pack.sequence.value >= bundledSequence as real
    {
      if official.Some? && official.value.sequence.Some? && official.value.sequence.value >= bundledSequence as real
      then official.value else Bundled()
    }

    predicate Accepts(tier: Tier, pack: Pack) {
      IsInteger(pack.sequence) && pack.sequence.value >= 0.0 && rules(tier, pack).Some?
    }

    predicate IsRevocations(doc: Pack) {
      IsInteger(doc.sequence) && revocationShape(doc)
    }
  }

  /** `acceptPack`: what validation adds to the problems. */
  function Complaints(env: Environment, tier: Tier, pack: Pack): seq<Problem> {
    if !env.Accepts(tier, pack) then [PackInvalid(tier)]
    else if env.rules(tier, pack).value > 0 then [RulesRejected(tier, env.rules(tier, pack).value)]
    else []
  }

  datatype Verdict = Ignored | Refused(problem: Problem) | Adopted

  /** The fate of an offered pack whose tier holds `current`. */
  function Judge(env: Environment, tier: Tier, current: Option<Pack>, offered: Option<Pack>): Verdict {
    if offered.None? then Ignored
    else if current.Some? && offered.value.sequence == current.value.sequence then Ignored
    else if current.Some? && Lower(offered.value.sequence, current.value.sequence) then Refused(Rollback(tier))
    else if env.Accepts(tier, offered.value) then Adopted
    else Refused(PackInvalid(tier))
  }

  predicate PluginAnswered(reply: Reply) {
    PluginDoc !in reply.deferred && reply.pluginEpoch.Some?
  }

  /** The fate of the plugin layer; `Adopted` without a pack clears it. */
  function JudgePlugin(env: Environment, stored: Stored, reply: Reply): Verdict {
    if !PluginAnswered(reply) then Ignored
    else if stored.pluginEpoch == reply.pluginEpoch then Judge(env, Plugin, stored.plugin, reply.plugin)
    else if reply.plugin.Some? then Judge(env, Plugin, None, reply.plugin)
    else if reply.pluginSequence == Some(0.0) then Adopted
    else Ignored
  }

  predicate AdoptsRevocations(env: Environment, stored: Stored, reply: Reply) {
    reply.revocations.Some? && env.IsRevocations(reply.revocations.value) &&
    (stored.revocations.None? || Lower(stored.revocations.value.sequence, reply.revocations.value.sequence))
  }

  /** The packs after a reply, layer by layer. */
  function Applied(env: Environment, stored: Stored, reply: Reply, remote: bool): Stored {
    var plugin := JudgePlugin(env, stored, reply).Adopted?;
    Stored(
      if remote && Judge(env, Official, Some(env.Effective(stored.official)), reply.official).Adopted?
      then reply.official else stored.official,
      if remote && Judge(env, Community, stored.community, reply.community).Adopted?
      then reply.community else stored.community,
      if plugin then reply.plugin else stored.plugin,
      if plugin then reply.pluginEpoch else stored.pluginEpoch,
      if remote && AdoptsRevocations(env, stored, reply) then reply.revocations else stored.revocations)
  }

  /** The problems a verdict on an offered pack leaves behind. */
  function ProblemsOf(env: Environment, tier: Tier, verdict: Verdict, offered: Option<Pack>): seq<Problem> {
    match verdict
    case Ignored => []
    case Refused(p) => [p]
    case Adopted => if offered.Some? then Complaints(env, tier, offered.value) else []
  }

  function AllProblems(env: Environment, stored: Stored, reply: Reply, remote: bool): seq<Problem> {
    (if remote then
       ProblemsOf(env, Official, Judge(env, Official, Some(env.Effective(stored.official)), reply.official), reply.official) +
       ProblemsOf(env, Community, Judge(env, Community, stored.community, reply.community), reply.community) +
       (if reply.revocations.Some? && !env.IsRevocations(reply.revocations.value) then [RevocationsInvalid] else [])
     else []) +
    ProblemsOf(env, Plugin, JudgePlugin(env, stored, reply), reply.plugin)
  }

  method ApplyPlugin(env: Environment, stored: Stored, reply: Reply) returns (next: Stored, changed: bool, problems: seq<Problem>)
    ensures var v := JudgePlugin(env, stored, reply);
      changed == v.Adopted? && problems == ProblemsOf(env, Plugin, v, reply.plugin) &&
      next == if changed then stored.(plugin := reply.plugin, pluginEpoch := reply.pluginEpoch) else stored
  {
    next, changed, problems := stored, false, [];
    if PluginDoc in reply.deferred || reply.pluginEpoch.None? { return; }
    if next.pluginEpoch != reply.pluginEpoch {
      if reply.plugin.Some? {
        problems := Complaints(env, Plugin, reply.plugin.value);
        if !env.Accepts(Plugin, reply.plugin.value) { return; }
        next := next.(plugin := reply.plugin);
      } else if reply.pluginSequence == Some(0.0) {
        next := next.(plugin := None);
      } else {
        return;
      }
      next := next.(pluginEpoch := reply.pluginEpoch);
      changed := true;
      return;
    }
    if reply.plugin.None? { return; }
    if next.plugin.Some? {
      if reply.plugin.value.sequence == next.plugin.value.sequence { return; }
      if Lower(reply.plugin.value.sequence, next.plugin.value.sequence) {
        problems := [Rollback(Plugin)];
        return;
      }
    }
    problems := Complaints(env, Plugin, reply.plugin.value);
    if !env.Accepts(Plugin, reply.plugin.value) { return; }
    next := next.(plugin := reply.plugin);
    changed := true;
  }

  /** One turn of the loop over the remote tiers. */
  method ApplyTier(env: Environment, tier: Tier, stored: Stored, next: Stored, offered: Option<Pack>)
    returns (after: Stored, changed: bool, problems: seq<Problem>)
    requires !tier.Plugin?
    ensures var current := if tier.Official? then Some(env.Effective(stored.official)) else stored.community;
      var v := Judge(env, tier, current, offered);
      changed == v.Adopted? && problems == ProblemsOf(env, tier, v, offered) &&
      after == if !changed then next else if tier.Official? then next.(official := offered) else next.(community := offered)
  {
    after, changed, problems := next, false, [];
    if offered.None? { return; }
    var current := if tier.Official? then Some(env.Effective(stored.official)) else stored.community;
    if current.Some? && offered.value.sequence == current.value.sequence { return; }
    if current.Some? && Lower(offered.value.sequence, current.value.sequence) {
      problems := [Rollback(tier)];
      return;
    }
    problems := Complaints(env, tier, offered.value);
    if !env.Accepts(tier, offered.value) { return; }
    after := if tier.Official? then next.(official := offered) else next.(community := offered);
    changed := true;
  }

  /** `applyReply`: merges a reply into a copy of the stored packs, and tells whether anything changed. */
  method ApplyReply(env: Environment, stored: Stored, reply: Reply, remote: bool)
    returns (next: Stored, changed: bool, problems: seq<Problem>)
    ensures next == Applied(env, stored, reply, remote) && problems == AllProblems(env, stored, reply, remote)
    ensures changed <==> next != stored
  {
    next, changed, problems := stored, false, [];
    if remote {
      var c, p;
      next, changed, problems := ApplyTier(env, Official, stored, next, reply.official);
      next, c, p := ApplyTier(env, Community, stored, next, reply.community);
      changed, problems := changed || c, problems + p;
      if reply.revocations.Some? {
        if !env.IsRevocations(reply.revocations.value) {
          problems := problems + [RevocationsInvalid];
        } else if stored.revocations.None? || Lower(stored.revocations.value.sequence, reply.revocations.value.sequence) {
          next := next.(revocations := reply.revocations);
          changed := true;
        }
      }
    }
    var n, c, p := ApplyPlugin(env, next, reply);
    next, changed, problems := n, changed || c, problems + p;
    ChangeShows(env, stored, reply, remote);
  }

  /** Some layer of the reply is taken. */
  predicate Takes(env: Environment, stored: Stored, reply: Reply, remote: bool) {
    (remote && (Judge(env, Official, Some(env.Effective(stored.official)), reply.official).Adopted? ||
                Judge(env, Community, stored.community, reply.community).Adopted? ||
                AdoptsRevocations(env, stored, reply))) ||
    JudgePlugin(env, stored, reply).Adopted?
  }

  /** An adopted document never equals what it replaces. */
  lemma ChangeShows(env: Environment, stored: Stored, reply: Reply, remote: bool)
    ensures Takes(env, stored, reply, remote) <==> Applied(env, stored, reply, remote) != stored
  {
    var next := Applied(env, stored, reply, remote);
    if next.official != stored.official { assert Takes(env, stored, reply, remote); }
    if remote && Judge(env, Official, Some(env.Effective(stored.official)), reply.official).Adopted? {
      assert reply.official != stored.official;
    }
  }

  // ----- What is taken -----

  /** A pack with a whole, non-negative sequence whose frame validation does not throw. */
  predicate Sound(env: Environment, tier: Tier, pack: Pack) {
    pack.sequence.Some? && pack.sequence.value == pack.sequence.value.Floor as real && pack.sequence.value >= 0.0 &&
    env.rules(tier, pack).Some?
  }

  /** Nothing comparable is stored, or something of a smaller sequence. */
  predicate Newer(pack: Pack, stored: Option<Pack>) {
    pack.sequence.Some? &&
    (stored.None? || stored.value.sequence.None? || stored.value.sequence.value < pack.sequence.value)
  }

  /** An official pack is taken exactly when it is sound and newer than the one in force. */
  lemma OfficialTaken(env: Environment, stored: Stored, reply: Reply, remote: bool)
    ensures Applied(env, stored, reply, remote).official ==
      if remote && reply.official.Some? && Sound(env, Official, reply.official.value) &&
         Newer(reply.official.value, Some(env.Effective(stored.official)))
      then reply.official else stored.official
  {
  }

  /** A community pack is taken exactly when it is sound and newer than the stored one, if there is one. */
  lemma CommunityTaken(env: Environment, stored: Stored, reply: Reply, remote: bool)
    ensures Applied(env, stored, reply, remote).community ==
      if remote && reply.community.Some? && Sound(env, Community, reply.community.value) &&
         Newer(reply.community.value, stored.community)
      then reply.community else stored.community
  {
  }

  /** A revocation document is well shaped and counted by a whole number. */
  predicate WellShaped(env: Environment, doc: Pack) {
    doc.sequence.Some? && doc.sequence.value == doc.sequence.value.Floor as real && env.revocationShape(doc)
  }

  /** A revocation document is taken exactly when it is well shaped and none, or an older one, is stored. */
  lemma RevocationsTaken(env: Environment, stored: Stored, reply: Reply, remote: bool)
    ensures Applied(env, stored, reply, remote).revocations ==
      if remote && reply.revocations.Some? && WellShaped(env, reply.revocations.value) &&
         (stored.revocations.Some? ==>
            stored.revocations.value.sequence.Some? &&
            stored.revocations.value.sequence.value < reply.revocations.value.sequence.value)
      then reply.revocations else stored.revocations
  {
  }

  /**
   * Where the host answers for the plugin: within an epoch a pack is taken exactly when it is sound and
   * newer; a new epoch brings any sound pack, or none at sequence 0.
   */
  lemma PluginTaken(env: Environment, stored: Stored, reply: Reply, remote: bool)
    requires PluginDoc !in reply.deferred && reply.pluginEpoch.Some?
    ensures var next := Applied(env, stored, reply, remote);
      if stored.pluginEpoch == reply.pluginEpoch then
        next.pluginEpoch == stored.pluginEpoch &&
        next.plugin ==
          if reply.plugin.Some? && Sound(env, Plugin, reply.plugin.value) && Newer(reply.plugin.value, stored.plugin)
          then reply.plugin else stored.plugin
      else if (if reply.plugin.Some? then Sound(env, Plugin, reply.plugin.value) else reply.pluginSequence == Some(0.0)) then
        next.plugin == reply.plugin && next.pluginEpoch == reply.pluginEpoch
      else next.plugin == stored.plugin && next.pluginEpoch == stored.pluginEpoch
  {
  }

  /** The offered pack is older than what the tier has. */
  predicate RolledBack(current: Option<Pack>, offered: Option<Pack>) {
    current.Some? && offered.Some? && current.value.sequence.Some? && offered.value.sequence.Some? &&
    offered.value.sequence.value < current.value.sequence.value
  }

  /** The offered pack is neither older nor of the same sequence, and fails validation. */
  predicate Unsound(env: Environment, tier: Tier, current: Option<Pack>, offered: Option<Pack>) {
    offered.Some? && !Sound(env, tier, offered.value) && !RolledBack(current, offered) &&
    (current.Some? ==> offered.value.sequence != current.value.sequence)
  }

  /** The problems an offered pack leads to, each exactly in its case, and no others. */
  ghost predicate ReportsExactly(env: Environment, tier: Tier, current: Option<Pack>, offered: Option<Pack>, ps: seq<Problem>) {
    (Rollback(tier) in ps <==> RolledBack(current, offered)) &&
    (PackInvalid(tier) in ps <==> Unsound(env, tier, current, offered)) &&
    (forall n :: RulesRejected(tier, n) in ps <==>
      offered.Some? && Sound(env, tier, offered.value) && Newer(offered.value, current) &&
      n > 0 && env.rules(tier, offered.value) == Some(n)) &&
    forall p :: p in ps ==> !p.RevocationsInvalid? && p.tier == tier
  }

  lemma TierProblems(env: Environment, tier: Tier, current: Option<Pack>, offered: Option<Pack>)
    ensures ReportsExactly(env, tier, current, offered, ProblemsOf(env, tier, Judge(env, tier, current, offered), offered))
  {
  }

  /** The reply's problems, one list for each layer. */
  ghost predicate ByLayer(env: Environment, stored: Stored, reply: Reply, remote: bool, all: seq<Problem>,
                          official: seq<Problem>, community: seq<Problem>, revocations: seq<Problem>, plugin: seq<Problem>) {
    all == (if remote then official + community + revocations else []) + plugin &&
    ReportsExactly(env, Official, Some(env.Effective(stored.official)), reply.official, official) &&
    ReportsExactly(env, Community, stored.community, reply.community, community) &&
    revocations ==
      (if reply.revocations.Some? && !WellShaped(env, reply.revocations.value) then [RevocationsInvalid] else []) &&
    if PluginDoc in reply.deferred || reply.pluginEpoch.None? then plugin == []
    else ReportsExactly(env, Plugin, if stored.pluginEpoch == reply.pluginEpoch then stored.plugin else None, reply.plugin, plugin)
  }

  lemma ProblemsExactly(env: Environment, stored: Stored, reply: Reply, remote: bool)
    ensures exists official, community, revocations, plugin ::
      ByLayer(env, stored, reply, remote, AllProblems(env, stored, reply, remote), official, community, revocations, plugin)
  {
    var official := Some(env.Effective(stored.official));
    TierProblems(env, Official, official, reply.official);
    TierProblems(env, Community, stored.community, reply.community);
    TierProblems(env, Plugin, stored.plugin, reply.plugin);
    TierProblems(env, Plugin, None, reply.plugin);
    var o := ProblemsOf(env, Official, Judge(env, Official, official, reply.official), reply.official);
    var c := ProblemsOf(env, Community, Judge(env, Community, stored.community, reply.community), reply.community);
    var r := if reply.revocations.Some? && !WellShaped(env, reply.revocations.value) then [RevocationsInvalid] else [];
    var p := ProblemsOf(env, Plugin, JudgePlugin(env, stored, reply), reply.plugin);
    assert ByLayer(env, stored, reply, remote, AllProblems(env, stored, reply, remote), o, c, r, p);
  }

  // ----- No rollback -----

  ghost predicate NotLower(after: Option<Pack>, before: Option<Pack>) {
    before.Some? ==> after.Some? && !Lower(after.value.sequence, before.value.sequence) &&
                     (before.value.sequence.Some? ==> after.value.sequence.Some?)
  }

  /** The remote layers as the engine sees them. */
  ghost predicate RemoteNotLower(env: Environment, after: Stored, before: Stored) {
    env.Effective(after.official).sequence.value >= env.Effective(before.official).sequence.value &&
    NotLower(after.community, before.community) && NotLower(after.revocations, before.revocations)
  }

  /** A reply never lowers a remote sequence, nor the plugin sequence within an epoch. */
  lemma NoRollback(env: Environment, stored: Stored, reply: Reply, remote: bool)
    ensures RemoteNotLower(env, Applied(env, stored, reply, remote), stored)
    ensures var next := Applied(env, stored, reply, remote);
      next.pluginEpoch == stored.pluginEpoch ==> NotLower(next.plugin, stored.plugin)
  {
    var next := Applied(env, stored, reply, remote);
    if remote && Judge(env, Official, Some(env.Effective(stored.official)), reply.official).Adopted? {
      assert next.official == reply.official;
    }
  }

  /** Only the plugin layer changes while remote rules are off, and only when the host answered for it. */
  lemma LocalOnly(env: Environment, stored: Stored, reply: Reply, remote: bool)
    ensures !remote ==>
      var next := Applied(env, stored, reply, false);
      next.official == stored.official && next.community == stored.community && next.revocations == stored.revocations
    ensures !PluginAnswered(reply) ==>
      var next := Applied(env, stored, reply, remote);
      next.plugin == stored.plugin && next.pluginEpoch == stored.pluginEpoch
  {
  }

  /** The epoch moves exactly with an accepted replacement or an explicit clear. */
  lemma EpochMoves(env: Environment, stored: Stored, reply: Reply, remote: bool)
    ensures var next := Applied(env, stored, reply, remote);
      next.pluginEpoch != stored.pluginEpoch <==>
        PluginAnswered(reply) && reply.pluginEpoch != stored.pluginEpoch &&
        (match reply.plugin case Some(p) => env.Accepts(Plugin, p) case None => reply.pluginSequence == Some(0.0))
    ensures var next := Applied(env, stored, reply, remote);
      next.pluginEpoch != stored.pluginEpoch ==> next.pluginEpoch == reply.pluginEpoch && next.plugin == reply.plugin
  {
  }

  /** Applying the same reply again changes nothing. */
  lemma Idempotent(env: Environment, stored: Stored, reply: Reply, remote: bool)
    ensures var next := Applied(env, stored, reply, remote); Applied(env, next, reply, remote) == next
  {
    var next := Applied(env, stored, reply, remote);
    if remote && Judge(env, Official, Some(env.Effective(stored.official)), reply.official).Adopted? {
      assert env.Effective(next.official) == reply.official.value;
    }
    if Takes(env, next, reply, remote) {
      assert !AdoptsRevocations(env, next, reply);
    }
    ChangeShows(env, next, reply, remote);
  }

  // ----- One exchange -----

  const MAX_ROUNDS: nat := 4

  /** The packs after the replies of one exchange, in order. */
  function AppliedAll(env: Environment, stored: Stored, replies: seq<Reply>, remote: bool): Stored
    decreases |replies|
  {
    if replies == [] then stored
    else AppliedAll(env, Applied(env, stored, replies[0], remote), replies[1..], remote)
  }

  lemma {:induction false} AppliedSnoc(env: Environment, stored: Stored, replies: seq<Reply>, reply: Reply, remote: bool)
    ensures AppliedAll(env, stored, replies + [reply], remote) ==
            Applied(env, AppliedAll(env, stored, replies, remote), reply, remote)
    decreases |replies|
  {
    if replies == [] {
      assert [reply][1..] == [] && replies + [reply] == [reply];
    } else {
      assert (replies + [reply])[1..] == replies[1..] + [reply];
      AppliedSnoc(env, Applied(env, stored, replies[0], remote), replies[1..], reply, remote);
    }
  }

  /** A reply leaves the packs in force at least as new as any sound pack it offers. */
  lemma OfferedArrives(env: Environment, stored: Stored, reply: Reply)
    ensures var next := Applied(env, stored, reply, true);
      (reply.official.Some? && Sound(env, Official, reply.official.value) ==>
         env.Effective(next.official).sequence.value >= reply.official.value.sequence.value) &&
      (reply.community.Some? && Sound(env, Community, reply.community.value) ==>
         NotLower(next.community, reply.community))
  {
    OfficialTaken(env, stored, reply, true);
    CommunityTaken(env, stored, reply, true);
  }

  /**
   * Over any list of replies, the packs in force end up at least as new as every sound pack that was
   * offered on the way: nothing newer is ever passed over.
   */
  lemma {:induction false} NewestArrives(env: Environment, stored: Stored, replies: seq<Reply>, k: nat)
    requires k < |replies|
    ensures var final := AppliedAll(env, stored, replies, true);
      (replies[k].official.Some? && Sound(env, Official, replies[k].official.value) ==>
         env.Effective(final.official).sequence.value >= replies[k].official.value.sequence.value) &&
      (replies[k].community.Some? && Sound(env, Community, replies[k].community.value) ==>
         NotLower(final.community, replies[k].community))
    decreases |replies|
  {
    var next := Applied(env, stored, replies[0], true);
    if k == 0 {
      OfferedArrives(env, stored, replies[0]);
      NoRollbackEver(env, next, replies[1..], true);
    } else {
      NewestArrives(env, next, replies[1..], k - 1);
    }
  }

  /** However many replies arrive, over however many exchanges, no remote layer goes back. */
  lemma {:induction false} NoRollbackEver(env: Environment, stored: Stored, replies: seq<Reply>, remote: bool)
    ensures RemoteNotLower(env, AppliedAll(env, stored, replies, remote), stored)
    decreases |replies|
  {
    if replies != [] {
      NoRollback(env, stored, replies[0], remote);
      NoRollbackEver(env, Applied(env, stored, replies[0], remote), replies[1..], remote);
    }
  }

  /** Reply k of an exchange changed the packs. */
  ghost predicate Progress(env: Environment, stored: Stored, replies: seq<Reply>, remote: bool, k: nat)
    requires k < |replies|
  {
    AppliedAll(env, stored, replies[..k + 1], remote) != AppliedAll(env, stored, replies[..k], remote)
  }

  /** Every reply but the last deferred something and changed something. */
  ghost predicate WorthAsking(env: Environment, stored: Stored, replies: seq<Reply>, remote: bool) {
    forall k: nat :: k + 1 < |replies| ==> replies[k].deferred != {} && Progress(env, stored, replies, remote, k)
  }

  ghost predicate AnyProgress(env: Environment, stored: Stored, replies: seq<Reply>, remote: bool) {
    exists k: nat :: k < |replies| && Progress(env, stored, replies, remote, k)
  }

  lemma Extended(env: Environment, stored: Stored, replies: seq<Reply>, reply: Reply, remote: bool)
    ensures forall k: nat :: k < |replies| ==>
      Progress(env, stored, replies + [reply], remote, k) == Progress(env, stored, replies, remote, k)
    ensures Progress(env, stored, replies + [reply], remote, |replies|) <==>
      AppliedAll(env, stored, replies + [reply], remote) != AppliedAll(env, stored, replies, remote)
  {
    forall k: nat | k < |replies|
      ensures Progress(env, stored, replies + [reply], remote, k) == Progress(env, stored, replies, remote, k)
    {
      assert (replies + [reply])[..k] == replies[..k] && (replies + [reply])[..k + 1] == replies[..k + 1];
    }
    assert (replies + [reply])[..|replies|] == replies && (replies + [reply])[..|replies| + 1] == replies + [reply];
  }

  /** The last reply deferred something and changed something, so that asking again is worth it. */
  ghost predicate LastWorth(env: Environment, stored: Stored, replies: seq<Reply>, remote: bool) {
    replies != [] ==> replies[|replies| - 1].deferred != {} && Progress(env, stored, replies, remote, |replies| - 1)
  }

  /** One more round of an exchange. */
  lemma OneMore(
    env: Environment, stored: Stored, replies: seq<Reply>, reply: Reply, remote: bool, now: Stored, changed: bool)
    requires WorthAsking(env, stored, replies, remote) && LastWorth(env, stored, replies, remote)
    requires now == AppliedAll(env, stored, replies, remote)
    requires changed <==> Applied(env, now, reply, remote) != now
    ensures var all := replies + [reply];
      AppliedAll(env, stored, all, remote) == Applied(env, now, reply, remote) &&
      WorthAsking(env, stored, all, remote) &&
      (AnyProgress(env, stored, all, remote) <==> AnyProgress(env, stored, replies, remote) || changed) &&
      (reply.deferred != {} && changed ==> LastWorth(env, stored, all, remote))
  {
    var all := replies + [reply];
    AppliedSnoc(env, stored, replies, reply, remote);
    Extended(env, stored, replies, reply, remote);
    assert Progress(env, stored, all, remote, |replies|) <==> changed;
    if AnyProgress(env, stored, replies, remote) {
      var k: nat :| k < |replies| && Progress(env, stored, replies, remote, k);
      assert Progress(env, stored, all, remote, k);
    }
  }

  /**
   * The fetch loop of `run`: `answer(k)` is what the host answers in round k, `replies` what was used.
   * The host is forced in the first round of a manual run only, and another round follows only a
   * reply that deferred something and changed something.
   */
  method Exchange(env: Environment, stored: Stored, remote: bool, manual: bool, answer: nat -> Option<Reply>)
    returns (final: Stored, packsChanged: bool, replies: seq<Reply>, forced: seq<bool>)
    ensures |replies| <= |forced| <= MAX_ROUNDS && |forced| >= 1
    ensures forall k :: 0 <= k < |forced| ==> (forced[k] <==> manual && remote && k == 0)
    ensures forall k :: 0 <= k < |replies| ==> answer(k) == Some(replies[k])
    ensures |replies| < |forced| ==> |forced| == |replies| + 1 && answer(|replies|).None?
    ensures final == AppliedAll(env, stored, replies, remote)
    ensures WorthAsking(env, stored, replies, remote)
    ensures packsChanged <==> AnyProgress(env, stored, replies, remote)
    ensures !packsChanged ==> final == stored
  {
    final, packsChanged, replies, forced := stored, false, [], [];
    var more := true;
    while |forced| < MAX_ROUNDS && more
      invariant more ==> |replies| == |forced|
      invariant |replies| <= |forced| <= MAX_ROUNDS && (!more ==> |forced| >= 1)
      invariant |replies| < |forced| ==> |forced| == |replies| + 1 && answer(|replies|).None?
      invariant forall k :: 0 <= k < |forced| ==> (forced[k] <==> manual && remote && k == 0)
      invariant forall k :: 0 <= k < |replies| ==> answer(k) == Some(replies[k])
      invariant final == AppliedAll(env, stored, replies, remote)
      invariant WorthAsking(env, stored, replies, remote)
      invariant more ==> LastWorth(env, stored, replies, remote)
      invariant packsChanged <==> AnyProgress(env, stored, replies, remote)
      invariant !packsChanged ==> final == stored
      decreases MAX_ROUNDS - |forced|
    {
      var reply := answer(|forced|);
      forced := forced + [manual && remote && |forced| == 0];
      if reply.None? {
        more := false;
      } else {
        var next, changed, _ := ApplyReply(env, final, reply.value, remote);
        OneMore(env, stored, replies, reply.value, remote, final, changed);
        replies := replies + [reply.value];
        final, packsChanged := next, packsChanged || changed;
        more := reply.value.deferred != {} && changed;
      }
    }
  }

  // ----- The coordinator -----

  datatype Trigger = Manual | Auto | FollowUp

  /** The run under way and the packs it has loaded. */
  datatype Flight = Flight(run: nat, trigger: Trigger, loaded: Option<Stored>)

  datatype Run = Run(trigger: Trigger, finished: bool)

  /** A manual request: how many runs had started before it, the run it met, and the run that answers it. */
  datatype Request = Request(startedBefore: nat, met: Option<nat>, answer: Option<nat>)

  /**
   * A request is answered by a manual run: the one it met or one started after the request. Until
   * then a synchronisation is queued for it.
   */
  ghost predicate RequestOk(runs: seq<Run>, queued: Option<nat>, r: Request) {
    r.startedBefore <= |runs| &&
    (r.met.Some? ==> r.startedBefore > 0 && r.met.value == r.startedBefore - 1) &&
    (match r.answer
     case Some(a) => a < |runs| && runs[a].trigger.Manual? && (a >= r.startedBefore || r.met == Some(a))
     case None => queued.Some? && r.met.Some? && !runs[r.met.value].trigger.Manual?)
  }

  ghost predicate RequestsOk(runs: seq<Run>, queued: Option<nat>, requests: seq<Request>) {
    forall q :: 0 <= q < |requests| ==> RequestOk(runs, queued, requests[q])
  }

  /** More runs, with the old ones at most finished. */
  ghost predicate Continues(before: seq<Run>, after: seq<Run>) {
    |before| <= |after| && forall k :: 0 <= k < |before| ==> after[k].trigger == before[k].trigger
  }

  function Answered(requests: seq<Request>, run: nat): (r: seq<Request>)
    ensures |r| == |requests|
    ensures forall q :: 0 <= q < |requests| ==>
      r[q] == if requests[q].answer.None? then requests[q].(answer := Some(run)) else requests[q]
  {
    seq(|requests|, q requires 0 <= q < |requests| =>
      if requests[q].answer.None? then requests[q].(answer := Some(run)) else requests[q])
  }

  class Coordinator {
    const env: Environment
    /** The stored packs; only runs write them. */
    var packs: Stored
    var current: Option<Flight>
    /** The run that the queued manual synchronisation waits for. */
    var queued: Option<nat>
    var followUpScheduled: bool
    /** Runs are numbered in the order they start. */
    var started: nat
    /** All runs in the order they started, all manual requests, the timers not yet fired, and the first packs. */
    ghost var runs: seq<Run>
    ghost var requests: seq<Request>
    ghost var timers: nat
    ghost const initial: Stored

    /** Runs are one at a time, and what the run under way has loaded is still what is stored. */
    ghost predicate SingleFlight()
      reads this
    {
      started == |runs| &&
      (forall k :: 0 <= k < |runs| ==> (!runs[k].finished <==> current.Some? && current.value.run == k)) &&
      (current.Some? ==>
        current.value.run == |runs| - 1 && current.value.trigger == runs[current.value.run].trigger &&
        (current.value.loaded.Some? ==> current.value.loaded.value == packs)) &&
      (queued.Some? ==> queued.value < |runs| && !runs[queued.value].trigger.Manual?) &&
      timers == (if followUpScheduled then 1 else 0) &&
      RemoteNotLower(env, packs, initial)
    }

    ghost predicate Valid()
      reads this
    {
      SingleFlight() && RequestsOk(runs, queued, requests)
    }

    constructor (env: Environment, packs: Stored)
      ensures Valid() && this.env == env && this.packs == packs && initial == packs
      ensures runs == [] && requests == [] && current.None? && queued.None? && timers == 0
    {
      this.env, this.packs, initial := env, packs, packs;
      current, queued, followUpScheduled, started := None, None, false, 0;
      runs, requests, timers := [], [], 0;
    }

    method Start(trigger: Trigger) returns (run: nat)
      requires SingleFlight() && current.None?
      modifies this`current, this`started, this`runs
      ensures SingleFlight() && run == |old(runs)| && runs == old(runs) + [Run(trigger, false)]
      ensures current == Some(Flight(run, trigger, None))
    {
      run := started;
      started := started + 1;
      runs := runs + [Run(trigger, false)];
      current := Some(Flight(run, trigger, None));
    }

    /** A timer or start-up event asks for a synchronisation: it shares the one under way. */
    method SyncAuto(trigger: Trigger) returns (run: nat)
      requires Valid() && !trigger.Manual?
      modifies this`current, this`started, this`runs
      ensures Valid() && current.Some? && run == current.value.run
      ensures if old(current).Some? then runs == old(runs) && current == old(current)
              else runs == old(runs) + [Run(trigger, false)]
    {
      if current.None? {
        run := Start(trigger);
      } else {
        run := current.value.run;
      }
    }

    /** `sync("manual")`: the run that answers, or None when the answer waits behind a run that was not forced. */
    method SyncManual() returns (run: Option<nat>)
      requires SingleFlight()
      modifies this`current, this`started, this`runs, this`queued
      ensures SingleFlight() && Continues(old(runs), runs)
      ensures run.Some? <==> old(current).None? || old(current).value.trigger.Manual?
      ensures run.Some? ==> current.Some? && run.value == current.value.run && current.value.trigger.Manual? && queued == old(queued)
      ensures runs == if old(current).None? then old(runs) + [Run(Manual, false)] else old(runs)
      ensures run.None? ==>
        current == old(current) && queued == if old(queued).Some? then old(queued) else Some(current.value.run)
    {
      if current.None? {
        var id := Start(Manual);
        return Some(id);
      }
      if current.value.trigger.Manual? {
        return Some(current.value.run);
      }
      if queued.None? {
        queued := Some(current.value.run);
      }
      return None;
    }

    /** The user asks for a synchronisation. */
    method RequestManual()
      requires Valid()
      modifies this`current, this`started, this`runs, this`queued, this`requests
      ensures Valid() && |requests| == |old(requests)| + 1 && requests[..|old(requests)|] == old(requests)
      ensures var r := requests[|old(requests)|];
        r.startedBefore == |old(runs)| && r.met == (if old(current).Some? then Some(old(current).value.run) else None)
    {
      ghost var before, met := |runs|, if current.Some? then Some(current.value.run) else None;
      var run := SyncManual();
      requests := requests + [Request(before, met, run)];
    }

    /**
     * The continuation behind the awaited run: by then the run has ended and perhaps another has begun.
     * Everyone who waited is answered together, or goes on waiting behind a run that is not manual.
     */
    method QueueFires()
      requires Valid() && queued.Some? && runs[queued.value].finished
      modifies this`current, this`started, this`runs, this`queued, this`requests
      ensures Valid() && |requests| == |old(requests)|
      ensures if old(current).Some? && !old(current).value.trigger.Manual?
              then requests == old(requests) && queued == Some(old(current).value.run)
              else queued.None? && forall q :: 0 <= q < |requests| ==> requests[q].answer.Some?
    {
      queued := None;
      var run := SyncManual();
      if run.Some? {
        requests := Answered(requests, run.value);
      }
    }

    /** The run loads the stored packs. */
    method Load()
      requires Valid() && current.Some?
      modifies this`current
      ensures Valid() && current == Some(old(current).value.(loaded := Some(packs)))
    {
      current := Some(current.value.(loaded := Some(packs)));
    }

    /** The run has heard these replies and saves what they made of the packs it loaded. */
    method Save(replies: seq<Reply>, remote: bool)
      requires Valid() && current.Some? && current.value.loaded.Some?
      modifies this`packs, this`current
      ensures Valid() && packs == AppliedAll(env, old(packs), replies, remote)
      ensures RemoteNotLower(env, packs, old(packs))
      ensures current == Some(old(current).value.(loaded := Some(packs)))
    {
      ghost var before := packs;
      NoRollbackEver(env, before, replies, remote);
      packs := AppliedAll(env, current.value.loaded.value, replies, remote);
      NotLowerTrans(env, packs, before, initial);
      current := Some(current.value.(loaded := Some(packs)));
    }

    /** An automatic run learns that the host is still refreshing. */
    method ScheduleFollowUp(remote: bool, refreshing: bool)
      requires Valid() && current.Some?
      modifies this`followUpScheduled, this`timers
      ensures Valid() && timers <= 1
      ensures timers > old(timers) ==> remote && refreshing && runs[current.value.run].trigger == Auto
    {
      if remote && current.value.trigger.Auto? && refreshing && !followUpScheduled {
        followUpScheduled := true;
        timers := timers + 1;
      }
    }

    method FollowUpFires() returns (run: nat)
      requires Valid() && timers > 0
      modifies this`current, this`started, this`runs, this`followUpScheduled, this`timers
      ensures Valid() && timers == 0 && current.Some? && run == current.value.run
    {
      followUpScheduled := false;
      timers := timers - 1;
      run := SyncAuto(FollowUp);
    }

    /** A run ends, with a result or by throwing: the flight it belongs to is over. */
    method Finish(run: nat)
      requires Valid() && run < |runs| && !runs[run].finished
      modifies this`current, this`runs
      ensures Valid() && current.None? && runs == old(runs)[run := old(runs)[run].(finished := true)]
    {
      if current.Some? && current.value.run == run {
        current := None;
      }
      runs := runs[run := runs[run].(finished := true)];
    }

    /**
     * At any moment: at most one run is under way, the packs have never gone back, and a request that
     * met a run that was not manual is answered by a manual run started after it, or still queued.
     */
    lemma Guarantees(j: nat, k: nat, q: nat)
      requires Valid() && j < |runs| && k < |runs| && q < |requests|
      ensures !runs[j].finished && !runs[k].finished ==> j == k
      ensures RemoteNotLower(env, packs, initial)
      ensures requests[q].answer.None? ==> queued.Some?
      ensures var r := requests[q]; r.answer.Some? ==>
        r.answer.value < |runs| && runs[r.answer.value].trigger.Manual? &&
        (r.met.Some? && !runs[r.met.value].trigger.Manual? ==> r.answer.value >= r.startedBefore)
    {
      assert RequestOk(runs, queued, requests[q]);
    }
  }

  lemma NotLowerTrans(env: Environment, c: Stored, b: Stored, a: Stored)
    requires RemoteNotLower(env, c, b) && RemoteNotLower(env, b, a)
    ensures RemoteNotLower(env, c, a)
  {
  }
}
