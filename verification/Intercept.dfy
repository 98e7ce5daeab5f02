/**
 * The two-layer claim on a browser download (fluxDown/background/intercept.ts): the filename callback
 * (primary layer) and the task started by onCreated (fallback layer) run concurrently and share
 * `handledDownloads`. Steps are atomic between awaits; what settings, metadata and browser answer
 * comes in with the event.
 */
module Intercept {
  import opened Options

  datatype Mark = ByPrimary | ByFallback | Released

  datatype PrimaryPhase = NotCalled | Deciding | CancellingFirst | Preparing | SendingFirst | PrimaryEnded

  datatype FallbackPhase = NotStarted | Waiting | Configuring | Judging | CancellingSecond | SendingSecond | FallbackEnded

  /** What the two layers and the shared table say about one download. */
  datatype Download = Download(
    mark: Option<Mark>, primary: PrimaryPhase, fallback: FallbackPhase, resolved: bool, sent: nat)
  {
    predicate PrimaryActive() {
      primary.Deciding? || primary.CancellingFirst? || primary.Preparing? || primary.SendingFirst?
    }

    predicate FallbackActive() {
      fallback.CancellingSecond? || fallback.SendingSecond?
    }
  }

  /** The verdict on settings and metadata; `Incomplete` is the no that metadata may still overturn. */
  datatype Verdict = Take | Leave | Incomplete

  /** What the filename callback finds, in the order it asks. */
  datatype Facts = Facts(
    replayable: bool,
    /** None: not a link capture; Some(true): claimed for sending; Some(false): declined or abandoned. */
    capture: Option<bool>,
    preemptedInPlace: bool,
    /** The verdict when all caches are warm. */
    warm: Option<Verdict>)

  datatype Event =
    | Callback(facts: Facts)
    | Decided(verdict: Option<Verdict>)
    | FilenameReleased
    | CancelAnswered(ok: bool)
    | CancelThrew
    | Prepared(ok: bool)
    | PrimarySent(ok: bool)
    | Created(start: bool)
    | Woken(found: bool)
    | Configured(go: bool)
    | Judged(intercept: bool)
    | CancelledForFallback
    | FallbackSent(ok: bool)

  const NEW: Download := Download(None, NotCalled, NotStarted, false, 0)

  /** Whether a layer is at the await that this event ends. */
  predicate Enabled(d: Download, e: Event) {
    match e
    case Callback(_) => d.primary.NotCalled?
    case Decided(_) => d.primary.Deciding?
    case FilenameReleased => !d.primary.NotCalled? && !d.primary.Deciding?
    case CancelAnswered(_) => d.primary.CancellingFirst?
    case CancelThrew => d.primary.CancellingFirst?
    case Prepared(_) => d.primary.Preparing?
    case PrimarySent(_) => d.primary.SendingFirst?
    case Created(_) => d.fallback.NotStarted?
    case Woken(_) => d.fallback.Waiting?
    case Configured(_) => d.fallback.Configuring?
    case Judged(_) => d.fallback.Judging?
    case CancelledForFallback => d.fallback.CancellingSecond?
    case FallbackSent(_) => d.fallback.SendingSecond?
  }

  function Release(d: Download): Download {
    d.(mark := Some(Released), primary := PrimaryEnded, resolved := true)
  }

  function HandBack(d: Download): Download {
    d.(mark := None, primary := PrimaryEnded, resolved := true)
  }

  function AfterVerdict(d: Download, verdict: Option<Verdict>): Download {
    match verdict
    case None => HandBack(d)
    case Some(Take) => d.(primary := CancellingFirst)
    case Some(Leave) => Release(d)
    case Some(Incomplete) => HandBack(d)
  }

  function AfterCallback(d: Download, f: Facts): Download {
    if !f.replayable then d.(primary := PrimaryEnded, resolved := true)
    else if f.capture.Some? then
      d.(mark := Some(ByPrimary), primary := if f.capture.value then CancellingFirst else PrimaryEnded)
    else if d.mark == Some(ByFallback) then d.(primary := PrimaryEnded)
    else if f.preemptedInPlace then d.(primary := PrimaryEnded, resolved := true)
    else
      var claimed := d.(mark := Some(ByPrimary));
      match f.warm
      case Some(Take) => claimed.(primary := CancellingFirst)
      case Some(Leave) => Release(claimed)
      case _ => claimed.(primary := Deciding)
  }

  function Next(d: Download, e: Event): Download
    requires Enabled(d, e)
  {
    match e
    case Callback(f) => AfterCallback(d, f)
    case Decided(v) => AfterVerdict(d, v)
    case FilenameReleased => d.(resolved := true)
    case CancelAnswered(ok) => d.(primary := if ok then Preparing else PrimaryEnded)
    case CancelThrew => if d.resolved then d.(primary := PrimaryEnded) else HandBack(d)
    case Prepared(ok) => if ok then d.(primary := SendingFirst) else d.(mark := None, primary := PrimaryEnded)
    case PrimarySent(ok) =>
      if ok then d.(primary := PrimaryEnded, sent := d.sent + 1) else d.(mark := None, primary := PrimaryEnded)
    case Created(start) => d.(fallback := if start then Waiting else FallbackEnded)
    case Woken(found) =>
      d.(fallback := if d.mark.Some? then FallbackEnded else if found then Configuring else Waiting)
    case Configured(go) => d.(fallback := if !go || d.mark.Some? then FallbackEnded else Judging)
    case Judged(intercept) =>
      if !intercept || d.mark.Some? then d.(fallback := FallbackEnded)
      else d.(mark := Some(ByFallback), fallback := CancellingSecond)
    case CancelledForFallback => d.(fallback := SendingSecond)
    case FallbackSent(ok) =>
      if ok then d.(fallback := FallbackEnded, sent := d.sent + 1) else d.(mark := None, fallback := FallbackEnded)
  }

  // ----- Safety -----

  /** What the claim protocol is for. */
  predicate Safe(d: Download) {
    !BothSending(d) && d.sent <= 1 &&
    (d.mark == Some(Released) ==> d.sent == 0 && !d.PrimaryActive() && !d.FallbackActive())
  }

  /** Whoever may still send holds the mark, alone, and nothing was sent before. */
  predicate Inv(d: Download) {
    d.sent <= 1 &&
    (d.PrimaryActive() ==> d.mark == Some(ByPrimary) && !d.FallbackActive() && d.sent == 0) &&
    (d.FallbackActive() ==>
      d.sent == 0 && !d.PrimaryActive() &&
      (d.mark == Some(ByFallback) || (d.mark == Some(ByPrimary) && d.primary.PrimaryEnded?))) &&
    (d.sent == 1 ==> d.mark == Some(ByFallback) || (d.mark == Some(ByPrimary) && d.primary.PrimaryEnded?)) &&
    (d.mark == Some(Released) ==> d.primary.PrimaryEnded?)
  }

  /** A link capture is claimed for a download that the fallback layer has already marked. */
  predicate Overrides(d: Download, e: Event) {
    e.Callback? && e.facts.replayable && e.facts.capture == Some(true) && d.mark == Some(ByFallback)
  }

  /** Events that happen one after the other, each at an await under way. */
  predicate IsRun(d: Download, events: seq<Event>)
    decreases |events|
  {
    events == [] || (Enabled(d, events[0]) && IsRun(Next(d, events[0]), events[1..]))
  }

  function After(d: Download, events: seq<Event>): Download
    requires IsRun(d, events)
    decreases |events|
  {
    if events == [] then d else After(Next(d, events[0]), events[1..])
  }

  predicate OverridesIn(d: Download, events: seq<Event>)
    requires IsRun(d, events)
    decreases |events|
  {
    events != [] && (Overrides(d, events[0]) || OverridesIn(Next(d, events[0]), events[1..]))
  }

  lemma Keeps(d: Download, e: Event)
    requires Inv(d) && Enabled(d, e) && !Overrides(d, e)
    ensures Inv(Next(d, e))
  {
    match e
    case Callback(f) =>
    case _ =>
  }

  lemma {:induction false} KeepsAll(d: Download, events: seq<Event>)
    requires Inv(d) && IsRun(d, events) && !OverridesIn(d, events)
    ensures Inv(After(d, events))
    decreases |events|
  {
    if events != [] {
      Keeps(d, events[0]);
      KeepsAll(Next(d, events[0]), events[1..]);
    }
  }

  /**
   * Over every interleaving of the two layers in which no claimed link capture overrides the fallback:
   * never two sends at once, at most one success, and no send around a release.
   */
  lemma AlwaysSafe(events: seq<Event>)
    requires IsRun(NEW, events) && !OverridesIn(NEW, events)
    ensures Safe(After(NEW, events))
  {
    KeepsAll(NEW, events);
  }

  /** A release is final: whatever follows, the mark stays and nothing is sent. */
  lemma {:induction false} ReleaseIsFinal(d: Download, events: seq<Event>)
    requires Inv(d) && d.mark == Some(Released) && IsRun(d, events)
    ensures After(d, events).mark == Some(Released) && After(d, events).sent == 0
    ensures !After(d, events).PrimaryActive() && !After(d, events).FallbackActive()
    decreases |events|
  {
    if events != [] {
      Keeps(d, events[0]);
      ReleaseIsFinal(Next(d, events[0]), events[1..]);
    }
  }

  /** What the fallback layer, once it has marked a download, still does to send it. */
  function FallbackRest(d: Download): seq<Event> {
    if d.fallback.CancellingSecond? then [CancelledForFallback, FallbackSent(true)]
    else if d.fallback.SendingSecond? then [FallbackSent(true)]
    else []
  }

  const CLAIMED: Facts := Facts(true, Some(true), false, None)

  ghost predicate MaySendTwice(d: Download) {
    exists rest: seq<Event> :: IsRun(d, rest) && After(d, rest).sent >= 2
  }

  /** A fallback mark means that the fallback is on its way to a send or has completed one. */
  predicate MarkMeansSend(d: Download) {
    d.mark == Some(ByFallback) ==> d.FallbackActive() || d.sent == 1
  }

  lemma MarkMeansSendKept(d: Download, e: Event)
    requires Inv(d) && MarkMeansSend(d) && Enabled(d, e) && !Overrides(d, e)
    ensures MarkMeansSend(Next(d, e))
  {
  }

  lemma {:induction false} MarkMeansSendAll(d: Download, events: seq<Event>)
    requires Inv(d) && MarkMeansSend(d) && IsRun(d, events) && !OverridesIn(d, events)
    ensures MarkMeansSend(After(d, events))
    decreases |events|
  {
    if events != [] {
      Keeps(d, events[0]);
      MarkMeansSendKept(d, events[0]);
      MarkMeansSendAll(Next(d, events[0]), events[1..]);
    }
  }

  /** The filename callback runs once, so nothing overrides the fallback afterwards. */
  lemma {:induction false} NoLaterOverride(d: Download, events: seq<Event>)
    requires IsRun(d, events) && !d.primary.NotCalled?
    ensures !OverridesIn(d, events)
    decreases |events|
  {
    if events != [] {
      NoLaterOverride(Next(d, events[0]), events[1..]);
    }
  }

  /** Both layers can finish their sends after the override. */
  lemma OverrideSendsTwice(d: Download)
    requires Inv(d) && MarkMeansSend(d) && d.primary.NotCalled? && d.mark == Some(ByFallback)
    ensures MaySendTwice(Next(d, Callback(CLAIMED)))
  {
    var c := Next(d, Callback(CLAIMED));
    var tail := FallbackRest(d);
    var c1 := Next(c, CancelAnswered(true));
    var c2 := Next(c1, Prepared(true));
    var c3 := Next(c2, PrimarySent(true));
    assert IsRun(c3, tail) && After(c3, tail).sent >= 2 by {
      if d.fallback.CancellingSecond? {
        var c4 := Next(c3, CancelledForFallback);
        OneMore(c4, FallbackSent(true), []);
        OneMore(c3, CancelledForFallback, [FallbackSent(true)] + []);
        assert [CancelledForFallback] + ([FallbackSent(true)] + []) == tail;
      } else if d.fallback.SendingSecond? {
        OneMore(c3, FallbackSent(true), []);
        assert [FallbackSent(true)] + [] == tail;
      }
    }
    OneMore(c2, PrimarySent(true), tail);
    OneMore(c1, Prepared(true), [PrimarySent(true)] + tail);
    OneMore(c, CancelAnswered(true), [Prepared(true)] + ([PrimarySent(true)] + tail));
  }

  lemma OneMore(d: Download, e: Event, rest: seq<Event>)
    requires Enabled(d, e) && IsRun(Next(d, e), rest)
    ensures IsRun(d, [e] + rest) && After(d, [e] + rest) == After(Next(d, e), rest)
  {
    assert ([e] + rest)[1..] == rest;
  }

  /**
   * The claim of a link capture does not look at the mark. From any reachable state it can lead to a
   * second successful send exactly when the fallback has marked the download by then.
   */
  lemma DoubleSendExactly(events: seq<Event>)
    requires IsRun(NEW, events) && !OverridesIn(NEW, events) && After(NEW, events).primary.NotCalled?
    ensures MaySendTwice(Next(After(NEW, events), Callback(CLAIMED))) <==> After(NEW, events).mark == Some(ByFallback)
  {
    var d := After(NEW, events);
    KeepsAll(NEW, events);
    MarkMeansSendAll(NEW, events);
    if d.mark == Some(ByFallback) {
      OverrideSendsTwice(d);
    } else {
      var c := Next(d, Callback(CLAIMED));
      Keeps(d, Callback(CLAIMED));
      forall rest: seq<Event> | IsRun(c, rest) ensures After(c, rest).sent < 2 {
        NoLaterOverride(c, rest);
        KeepsAll(c, rest);
      }
    }
  }

  predicate BothSending(d: Download) {
    d.primary.SendingFirst? && d.fallback.SendingSecond?
  }

  /** A run in which both layers are sending at the same time. */
  lemma BothLayersCanSend()
    ensures exists events :: IsRun(NEW, events) && BothSending(After(NEW, events))
  {
    var d1 := Next(NEW, Created(true));
    var d2 := Next(d1, Woken(true));
    var d3 := Next(d2, Configured(true));
    var d4 := Next(d3, Judged(true));
    var d5 := Next(d4, CancelledForFallback);
    var d6 := Next(d5, Callback(CLAIMED));
    var d7 := Next(d6, CancelAnswered(true));
    var r7: seq<Event> := [Prepared(true)];
    OneMore(d7, Prepared(true), []);
    assert [Prepared(true)] + [] == r7;
    OneMore(d6, CancelAnswered(true), r7);
    var r6 := [CancelAnswered(true)] + r7;
    OneMore(d5, Callback(CLAIMED), r6);
    var r5 := [Callback(CLAIMED)] + r6;
    OneMore(d4, CancelledForFallback, r5);
    var r4 := [CancelledForFallback] + r5;
    OneMore(d3, Judged(true), r4);
    var r3 := [Judged(true)] + r4;
    OneMore(d2, Configured(true), r3);
    var r2 := [Configured(true)] + r3;
    OneMore(d1, Woken(true), r2);
    var r1 := [Woken(true)] + r2;
    OneMore(NEW, Created(true), r1);
  }

  // ----- What is taken is sent -----

  predicate OfPrimary(e: Event) {
    e.Callback? || e.Decided? || e.CancelAnswered? || e.CancelThrew? || e.Prepared? || e.PrimarySent?
  }

  /** The events of the primary layer among these, in order. */
  function PrimaryOf(events: seq<Event>): seq<Event> {
    if events == [] then []
    else if OfPrimary(events[0]) then [events[0]] + PrimaryOf(events[1..])
    else PrimaryOf(events[1..])
  }

  const DONE: seq<Event> := [CancelAnswered(true), Prepared(true), PrimarySent(true)]

  /** The callback takes the download: a claimed link capture, or one of its own with no verdict against it. */
  predicate Takes(f: Facts) {
    f.replayable && (f.capture == Some(true) || (f.capture.None? && !f.preemptedInPlace && f.warm != Some(Leave)))
  }

  /** What then has to happen: the settings decide first if no cache could. */
  function Completion(f: Facts): seq<Event> {
    if f.capture == Some(true) || f.warm == Some(Take) then DONE else [Decided(Some(Take))] + DONE
  }

  /** With the mark in hand, the primary layer waits for the first of these events. */
  predicate Facing(d: Download, left: seq<Event>) {
    !d.FallbackActive() && d.mark == Some(ByPrimary) &&
    ((left == [] && d.primary.PrimaryEnded? && d.sent == 1) ||
     (left != [] && d.sent == 0 &&
      ((left == DONE[2..] && d.primary.SendingFirst?) || (left == DONE[1..] && d.primary.Preparing?) ||
       (left == DONE && d.primary.CancellingFirst?) || (left == [Decided(Some(Take))] + DONE && d.primary.Deciding?))))
  }

  lemma FacingStep(d: Download, left: seq<Event>)
    requires Facing(d, left) && left != []
    ensures Enabled(d, left[0]) && Facing(Next(d, left[0]), left[1..])
  {
    var all := DONE;
    assert ([Decided(Some(Take))] + all)[1..] == all && all[2..][1..] == [] && all[1..][1..] == all[2..];
  }

  lemma FacingOther(d: Download, left: seq<Event>, e: Event)
    requires Facing(d, left) && Enabled(d, e) && !OfPrimary(e)
    ensures Facing(Next(d, e), left)
  {
  }

  lemma {:induction false} FacedIsSent(d: Download, left: seq<Event>, events: seq<Event>)
    requires Facing(d, left) && IsRun(d, events) && PrimaryOf(events) == left
    ensures Facing(After(d, events), [])
    decreases |events|
  {
    if events != [] {
      var e, rest := events[0], events[1..];
      if OfPrimary(e) {
        assert left == [e] + PrimaryOf(rest);
        assert left[1..] == PrimaryOf(rest);
        FacingStep(d, left);
        FacedIsSent(Next(d, e), left[1..], rest);
      } else {
        FacingOther(d, left, e);
        FacedIsSent(Next(d, e), left, rest);
      }
    }
  }

  /** The callback finds a download that nobody has marked. */
  predicate Unclaimed(d: Download) {
    d.primary.NotCalled? && d.mark.None? && !d.FallbackActive() && d.sent == 0
  }

  /**
   * A download that the callback takes is sent, once and by the primary layer, when decision, cancel,
   * preparation and send go well, whatever the fallback does in between; and each of these is awaited.
   */
  lemma TakenIsSent(d: Download, f: Facts, events: seq<Event>)
    requires Unclaimed(d) && Takes(f)
    requires IsRun(Next(d, Callback(f)), events) && PrimaryOf(events) == Completion(f)
    ensures After(Next(d, Callback(f)), events).sent == 1 && After(Next(d, Callback(f)), events).mark == Some(ByPrimary)
  {
    FacedIsSent(Next(d, Callback(f)), Completion(f), events);
  }

  /** There is such a run: nothing but these events is needed. */
  lemma TakenCanBeSent(d: Download, f: Facts)
    requires Unclaimed(d) && Takes(f)
    ensures IsRun(Next(d, Callback(f)), Completion(f)) && PrimaryOf(Completion(f)) == Completion(f)
  {
    FacedRuns(Next(d, Callback(f)), Completion(f));
  }

  lemma {:induction false} FacedRuns(d: Download, left: seq<Event>)
    requires Facing(d, left) && forall e :: e in left ==> OfPrimary(e)
    ensures IsRun(d, left) && PrimaryOf(left) == left
    decreases |left|
  {
    if left != [] {
      FacingStep(d, left);
      FacedRuns(Next(d, left[0]), left[1..]);
    }
  }

  /** How the primary layer ends without a send, and what it leaves in the table. */
  lemma EndsWithout(d: Download, e: Event)
    requires Inv(d) && d.PrimaryActive() && Enabled(d, e) && Next(d, e).primary.PrimaryEnded? && Next(d, e).sent == d.sent
    ensures Next(d, e).mark == Some(Released) <==> e == Decided(Some(Leave))
    ensures Next(d, e).mark == Some(ByPrimary) <==> e == CancelAnswered(false) || (e == CancelThrew && d.resolved)
    ensures Next(d, e).mark == None <==>
      e == Decided(None) || e == Decided(Some(Incomplete)) || (e == CancelThrew && !d.resolved) ||
      e == Prepared(false) || e == PrimarySent(false)
  {
  }

  /** The fallback has not looked at the table for the last time. */
  predicate FallbackPending(d: Download) {
    d.fallback.NotStarted? || d.fallback.Waiting? || d.fallback.Configuring? || d.fallback.Judging?
  }

  /** Somebody may still send, or it is sent. */
  predicate Open(d: Download) {
    d.sent == 1 || d.PrimaryActive() || d.FallbackActive() || d.primary.NotCalled? ||
    (d.mark.None? && FallbackPending(d))
  }

  /** Steps to the nearest send. */
  function Distance(d: Download): nat {
    if d.sent > 0 then 0
    else match d.primary
      case SendingFirst => 1
      case Preparing => 2
      case CancellingFirst => 3
      case Deciding => 4
      case NotCalled => 5
      case PrimaryEnded =>
        match d.fallback
        case SendingSecond => 1
        case CancellingSecond => 2
        case Judging => 3
        case Configuring => 4
        case Waiting => 5
        case NotStarted => 6
        case FallbackEnded => 0
  }

  function Nearer(d: Download): Event {
    match d.primary
    case SendingFirst => PrimarySent(true)
    case Preparing => Prepared(true)
    case CancellingFirst => CancelAnswered(true)
    case Deciding => Decided(Some(Take))
    case NotCalled => Callback(CLAIMED)
    case PrimaryEnded =>
      match d.fallback
      case SendingSecond => FallbackSent(true)
      case CancellingSecond => CancelledForFallback
      case Judging => Judged(true)
      case Configuring => Configured(true)
      case Waiting => Woken(true)
      case _ => Created(true)
  }

  lemma {:induction false} OpenSends(d: Download) returns (rest: seq<Event>)
    requires Open(d) && d.sent <= 1
    ensures IsRun(d, rest) && After(d, rest).sent >= 1
    decreases Distance(d)
  {
    if d.sent == 1 {
      rest := [];
    } else {
      var e := Nearer(d);
      rest := OpenSends(Next(d, e));
      OneMore(d, e, rest);
      rest := [e] + rest;
    }
  }

  lemma {:induction false} ClosedStays(d: Download, rest: seq<Event>)
    requires !Open(d) && d.sent == 0 && IsRun(d, rest)
    ensures After(d, rest).sent == 0
    decreases |rest|
  {
    if rest != [] {
      ClosedStays(Next(d, rest[0]), rest[1..]);
    }
  }

  ghost predicate MaySend(d: Download) {
    exists rest: seq<Event> :: IsRun(d, rest) && After(d, rest).sent >= 1
  }

  /**
   * A download can still be sent exactly as long as a layer is on its way, the callback is to come, or
   * nobody has it and the fallback has yet to look.
   */
  lemma MaySendExactly(d: Download)
    requires Inv(d)
    ensures MaySend(d) <==> Open(d)
  {
    if Open(d) {
      var rest := OpenSends(d);
    } else {
      forall rest: seq<Event> | IsRun(d, rest) ensures After(d, rest).sent == 0 {
        ClosedStays(d, rest);
      }
    }
  }

  /**
   * A download that the callback does not take is left to the fallback exactly when it cannot be replayed or
   * its transfer page was dealt with in place; after a declined capture and a release nothing sends it.
   */
  lemma NotTaken(d: Download, f: Facts)
    requires Inv(d) && Unclaimed(d) && FallbackPending(d) && !Takes(f)
    ensures MaySend(Next(d, Callback(f))) <==> !f.replayable || (f.capture.None? && f.preemptedInPlace)
  {
    Keeps(d, Callback(f));
    MaySendExactly(Next(d, Callback(f)));
  }

  // ----- The handlers -----

  /** The shared table and, per download, where its two layers stand. */
  class Interception {
    var handled: map<nat, Mark>
    var primaries: map<nat, PrimaryPhase>
    var fallbacks: map<nat, FallbackPhase>
    var resolved: set<nat>
    var sent: map<nat, nat>

    function View(id: nat): Download
      reads this
    {
      Download(
        if id in handled then Some(handled[id]) else None,
        if id in primaries then primaries[id] else NotCalled,
        if id in fallbacks then fallbacks[id] else NotStarted,
        id in resolved,
        if id in sent then sent[id] else 0)
    }

    ghost predicate Valid()
      reads this
    {
      forall id :: Inv(View(id))
    }

    constructor ()
      ensures Valid() && forall id :: View(id) == NEW
    {
      handled, primaries, fallbacks, resolved, sent := map[], map[], map[], {}, map[];
    }

    /** The step of one download leaves all others alone. */
    twostate predicate OnlyStep(id: nat, e: Event)
      reads this
    {
      Enabled(old(View(id)), e) && View(id) == Next(old(View(id)), e) &&
      forall other :: other != id ==> View(other) == old(View(other))
    }

    /** Every step but the override keeps every download within the protocol. */
    twostate lemma StepKeepsValid(id: nat, e: Event)
      requires old(Valid()) && Enabled(old(View(id)), e) && OnlyStep(id, e) && !Overrides(old(View(id)), e)
      ensures Valid()
    {
      Keeps(old(View(id)), e);
      forall other: nat ensures Inv(View(other)) {
        assert old(Inv(View(other)));
      }
    }

    method ResolveFilename(id: nat)
      modifies this`resolved
      ensures resolved == old(resolved) + {id}
    {
      if id !in resolved {
        resolved := resolved + {id};
      }
    }

    /** The filename callback up to its first await. */
    method FilenameCallback(id: nat, f: Facts)
      requires View(id).primary.NotCalled?
      modifies this
      ensures OnlyStep(id, Callback(f))
    {
      if !f.replayable {
        ResolveFilename(id);
        primaries := primaries[id := PrimaryEnded];
        return;
      }
      if f.capture.Some? {
        handled := handled[id := ByPrimary];
        primaries := primaries[id := if f.capture.value then CancellingFirst else PrimaryEnded];
        return;
      }
      if id in handled && handled[id] == ByFallback {
        primaries := primaries[id := PrimaryEnded];
        return;
      }
      if f.preemptedInPlace {
        ResolveFilename(id);
        primaries := primaries[id := PrimaryEnded];
        return;
      }
      handled := handled[id := ByPrimary];
      if f.warm == Some(Leave) {
        handled := handled[id := Released];
        ResolveFilename(id);
        primaries := primaries[id := PrimaryEnded];
      } else if f.warm == Some(Take) {
        primaries := primaries[id := CancellingFirst];
      } else {
        primaries := primaries[id := Deciding];
      }
    }

    /** `resolveWithLoadedSettings`; None stands for an error. */
    method ResolveWithSettings(id: nat, verdict: Option<Verdict>)
      requires View(id).primary.Deciding?
      modifies this
      ensures OnlyStep(id, Decided(verdict))
    {
      if verdict == Some(Take) {
        primaries := primaries[id := CancellingFirst];
        return;
      }
      if verdict == Some(Leave) {
        handled := handled[id := Released];
      } else {
        handled := handled - {id};
      }
      ResolveFilename(id);
      primaries := primaries[id := PrimaryEnded];
    }

    /** The browser reports the download still in progress after the cancel request. */
    method ReleaseFilename(id: nat)
      requires Enabled(View(id), FilenameReleased)
      modifies this`resolved
      ensures OnlyStep(id, FilenameReleased)
    {
      ResolveFilename(id);
    }

    /** The rest of `interceptAfterCancellation`, await by await; None stands for an exception. */
    method AfterCancel(id: nat, answer: Option<bool>)
      requires View(id).primary.CancellingFirst?
      modifies this
      ensures OnlyStep(id, if answer.Some? then CancelAnswered(answer.value) else CancelThrew)
    {
      if answer == Some(true) {
        primaries := primaries[id := Preparing];
        return;
      }
      if answer.None? && id !in resolved {
        handled := handled - {id};
        ResolveFilename(id);
      }
      primaries := primaries[id := PrimaryEnded];
    }

    method AfterPreparation(id: nat, ok: bool)
      requires View(id).primary.Preparing?
      modifies this
      ensures OnlyStep(id, Prepared(ok))
    {
      if ok {
        primaries := primaries[id := SendingFirst];
      } else {
        handled := handled - {id};
        primaries := primaries[id := PrimaryEnded];
      }
    }

    method AfterPrimarySend(id: nat, ok: bool)
      requires View(id).primary.SendingFirst?
      modifies this
      ensures OnlyStep(id, PrimarySent(ok))
    {
      if ok {
        sent := sent[id := (if id in sent then sent[id] else 0) + 1];
      } else {
        handled := handled - {id};
      }
      primaries := primaries[id := PrimaryEnded];
    }

    /** `handleDownloadCreated`; `start` is false for link captures and while interception is off. */
    method DownloadCreated(id: nat, start: bool)
      requires View(id).fallback.NotStarted?
      modifies this`fallbacks
      ensures OnlyStep(id, Created(start))
    {
      fallbacks := fallbacks[id := if start then Waiting else FallbackEnded];
    }

    /**
     * The waiting fallback wakes up: another layer has it, metadata is there, or it waits on. A download
     * that is gone or over counts as found, and is then not gone on with.
     */
    method FallbackWakes(id: nat, found: bool)
      requires View(id).fallback.Waiting?
      modifies this`fallbacks
      ensures OnlyStep(id, Woken(found))
    {
      if id in handled {
        fallbacks := fallbacks[id := FallbackEnded];
      } else {
        fallbacks := fallbacks[id := if found then Configuring else Waiting];
      }
    }

    method FallbackConfigured(id: nat, go: bool)
      requires View(id).fallback.Configuring?
      modifies this`fallbacks
      ensures OnlyStep(id, Configured(go))
    {
      if !go || id in handled {
        fallbacks := fallbacks[id := FallbackEnded];
      } else {
        fallbacks := fallbacks[id := Judging];
      }
    }

    /** The last test of the table and the mark are one step. */
    method FallbackJudged(id: nat, intercept: bool)
      requires View(id).fallback.Judging?
      modifies this`fallbacks, this`handled
      ensures OnlyStep(id, Judged(intercept))
    {
      if !intercept || id in handled {
        fallbacks := fallbacks[id := FallbackEnded];
      } else {
        handled := handled[id := ByFallback];
        fallbacks := fallbacks[id := CancellingSecond];
      }
    }

    /** A failed cancel does not stop the fallback. */
    method FallbackCancelled(id: nat)
      requires View(id).fallback.CancellingSecond?
      modifies this`fallbacks
      ensures OnlyStep(id, CancelledForFallback)
    {
      fallbacks := fallbacks[id := SendingSecond];
    }

    method AfterFallbackSend(id: nat, ok: bool)
      requires View(id).fallback.SendingSecond?
      modifies this
      ensures OnlyStep(id, FallbackSent(ok))
    {
      if ok {
        sent := sent[id := (if id in sent then sent[id] else 0) + 1];
      } else {
        handled := handled - {id};
      }
      fallbacks := fallbacks[id := FallbackEnded];
    }
  }
}
