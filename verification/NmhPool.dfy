/**
 * The per-key native-messaging port pool (fluxDown/utils/nmh-dedicated.ts).
 *
 * Each public method of `Pool` is one callback of the source: calls, replies, disconnects and timers
 * may come in any order. Ghost fields record what the outside world has seen.
 */
module NmhPool {
  import opened Options

  datatype Request = Request(id: nat, action: string, payload: string)

  datatype Result = Result(success: bool, message: string)

  const UNAVAILABLE := Result(false, "native_messaging_unavailable")
  const POST_FAILED := Result(false, "postMessage failed")

  // ----- One lane -----

  /** Everything about a lane, with its history. */
  datatype View = View(
    port: Option<nat>, queue: seq<Request>, inflight: Option<Request>, idle: bool, timer: Option<nat>,
    done: seq<Request>, results: seq<Result>, floor: nat, top: nat, open: set<nat>)

  ghost predicate AscendingIds(q: seq<Request>) {
    forall i, j :: 0 <= i < j < |q| ==> q[i].id < q[j].id
  }

  /** Every request ever given to the lane: resolved, in flight, waiting. */
  ghost function Log(v: View): seq<Request> {
    v.done + (if v.inflight.Some? then [v.inflight.value] else []) + v.queue
  }

  /**
   * One result per resolved request; waiting requests in order of arrival and later than anything
   * taken from the queue; the request in flight has its timer running and an open port; at most one
   * port is open.
   */
  ghost predicate LaneInv(v: View) {
    |v.done| == |v.results| && AscendingIds(v.queue) && v.floor <= v.top &&
    (v.queue != [] ==> v.floor < v.queue[0].id && v.queue[|v.queue| - 1].id <= v.top) &&
    (v.inflight.Some? ==> v.inflight.value.id == v.floor && v.timer == Some(v.floor) && v.port.Some? && !v.idle) &&
    (v.inflight.None? ==> v.timer == None) &&
    v.open == (if v.port.Some? then {v.port.value} else {})
  }

  /** Requests wait only behind one in flight; a lane in the map is busy or waits for its idle timer. */
  ghost predicate Settled(v: View, inMap: bool) {
    (v.queue != [] ==> v.inflight.Some?) && (inMap && v.inflight.None? ==> v.port.Some? && v.idle)
  }

  /** A lane out of the map holds no request and no port. */
  ghost predicate Fine(v: View, inMap: bool, nextMsgId: nat) {
    LaneInv(v) && v.top < nextMsgId && (!inMap ==> v.queue == [] && v.inflight.None? && v.port.None?)
  }

  class Lane {
    const key: string
    var port: Option<nat>
    var queue: seq<Request>
    var inflight: Option<Request>
    /** The idle timer is armed. */
    var idle: bool
    /** The request whose timeout timer is armed. */
    var timer: Option<nat>

    /** Resolved requests and their results. */
    ghost var done: seq<Request>
    ghost var results: seq<Result>
    /** Waiting requests have higher ids than `floor`; no request has a higher id than `top`. */
    ghost var floor: nat
    ghost var top: nat
    /** Ports connected for this lane and not disconnected since. */
    ghost var open: set<nat>

    ghost function V(): View
      reads this
    {
      View(port, queue, inflight, idle, timer, done, results, floor, top, open)
    }

    constructor (key: string, floor: nat)
      ensures this.key == key && V() == View(None, [], None, false, None, [], [], floor, floor, {})
    {
      this.key := key;
      port, queue, inflight, idle, timer := None, [], None, false, None;
      done, results, this.floor, top, open := [], [], floor, floor, {};
    }

    method Connect(p: nat)
      requires LaneInv(V()) && port.None?
      modifies this`port, this`open
      ensures V() == old(V()).(port := Some(p), open := {p}) && LaneInv(V())
    {
      port, open := Some(p), {p};
    }

    method ClosePort()
      requires LaneInv(V()) && inflight.None?
      modifies this`port, this`open
      ensures V() == old(V()).(port := None, open := {}) && LaneInv(V())
    {
      if port.Some? { open := open - {port.value}; }
      port := None;
    }

    /** `settle` for the request in flight. */
    method SettleInflight(result: Result)
      requires LaneInv(V()) && inflight.Some?
      modifies this`timer, this`inflight, this`done, this`results
      ensures V() == old(V()).(timer := None, inflight := None, done := old(done) + [old(inflight).value],
                               results := old(results) + [result])
      ensures LaneInv(V()) && Log(V()) == old(Log(V()))
    {
      timer := None;
      done, results := done + [inflight.value], results + [result];
      inflight := None;
      assert Log(V()) == old(Log(V()));
    }

    method Enqueue(r: Request)
      requires LaneInv(V()) && top < r.id
      modifies this`queue, this`top
      ensures V() == old(V()).(queue := old(queue) + [r], top := r.id)
      ensures LaneInv(V()) && Log(V()) == old(Log(V())) + [r]
    {
      queue, top := queue + [r], r.id;
      assert Log(V()) == old(Log(V())) + [r];
    }

    /** The head of the queue goes in flight with its timer. */
    method TakeHead() returns (next: Request)
      requires LaneInv(V()) && queue != [] && inflight.None? && port.Some?
      modifies this`idle, this`queue, this`inflight, this`timer, this`floor
      ensures next == old(queue)[0]
      ensures V() == old(V()).(idle := false, queue := old(queue)[1..], inflight := Some(next), timer := Some(next.id),
                               floor := next.id)
      ensures LaneInv(V()) && Log(V()) == old(Log(V()))
    {
      next := queue[0];
      queue := queue[1..];
      idle, inflight, timer, floor := false, Some(next), Some(next.id), next.id;
      assert Log(V()) == old(Log(V()));
    }

    /** The port disconnected: the request in flight fails. */
    method PortGone()
      requires LaneInv(V()) && port.Some?
      modifies this
      ensures LaneInv(V()) && Log(V()) == old(Log(V())) && inflight.None? && port.None?
      ensures queue == old(queue) && floor == old(floor) && top == old(top)
      ensures results == old(results) + if old(inflight).Some? then [Result(false, "port disconnected")] else []
    {
      if inflight.Some? {
        SettleInflight(Result(false, "port disconnected"));
      }
      port, open := None, {};
    }

    /** `postMessage` threw: the head of the queue fails and the port is given up. */
    method PostFailed()
      requires LaneInv(V()) && queue != [] && inflight.None? && port.Some?
      modifies this
      ensures LaneInv(V()) && Log(V()) == old(Log(V())) && queue == old(queue)[1..] && inflight.None? && port.None?
      ensures results == old(results) + [POST_FAILED]
      ensures floor == old(queue)[0].id && top == old(top)
    {
      var next := TakeHead();
      SettleInflight(POST_FAILED);
      ClosePort();
    }

    /** The head of the queue fails for want of a port. */
    method FailHead()
      requires LaneInv(V()) && inflight.None? && queue != []
      modifies this`queue, this`done, this`results
      ensures V() == old(V()).(queue := old(queue)[1..], done := old(done) + [old(queue)[0]],
                               results := old(results) + [UNAVAILABLE])
      ensures LaneInv(V()) && Log(V()) == old(Log(V()))
    {
      ghost var head, rest := queue[0], queue[1..];
      assert done + [] + queue == (done + [head]) + [] + rest by { assert queue == [head] + rest; }
      done, results := done + [queue[0]], results + [UNAVAILABLE];
      queue := queue[1..];
    }

    /** Connecting failed: everything waiting fails. */
    method FailAll()
      requires LaneInv(V()) && inflight.None?
      modifies this`idle, this`queue, this`done, this`results
      ensures LaneInv(V()) && Log(V()) == old(Log(V())) && queue == [] && !idle && old(results) <= results
      ensures Pumped(None, old(queue), old(results), [], V(), [], 0)
    {
      ghost var q := queue;
      idle := false;
      while queue != []
        invariant LaneInv(V()) && Log(V()) == old(Log(V())) && old(results) <= results && !idle && inflight.None?
        invariant forall i :: |old(results)| <= i < |results| ==> results[i] == UNAVAILABLE
        decreases |queue|
      {
        FailHead();
      }
      assert |Log(V())| == |results| && |old(Log(V()))| == |old(results)| + |q|;
    }
  }

  // ----- The pool -----

  ghost predicate Ascending(s: seq<nat>) {
    |s| <= 1 || (Ascending(s[..|s| - 1]) && s[|s| - 2] < s[|s| - 1])
  }

  /** Ascending ids up to `bound`. */
  ghost predicate PostsUpTo(s: seq<nat>, bound: nat) {
    Ascending(s) && (s != [] ==> s[|s| - 1] <= bound)
  }

  /**
   * What pumping a queue does: the first k posts throw and fail, and then the next request is posted, or
   * all that is left fails for want of a port, if anything is left. A port that is open is used first.
   */
  ghost predicate Pumped(port: Option<nat>, q: seq<Request>, before: seq<Result>, posted: seq<nat>, v: View, after: seq<nat>,
                         k: nat) {
    k <= |q| && before <= v.results && |v.results| >= |before| + k &&
    (forall i :: |before| <= i < |before| + k ==> v.results[i] == POST_FAILED) &&
    (forall i :: |before| + k <= i < |v.results| ==> v.results[i] == UNAVAILABLE) &&
    (port.Some? && k == 0 ==> if q == [] then v.inflight.None? else v.inflight.Some? && v.port == port) &&
    if v.inflight.Some?
    then k < |q| && v.inflight.value == q[k] && v.queue == q[k + 1..] && |v.results| == |before| + k && after == posted + [q[k].id]
    else v.queue == [] && |v.results| == |before| + |q| && after == posted
  }

  ghost predicate PumpedTo(port: Option<nat>, q: seq<Request>, before: seq<Result>, posted: seq<nat>, v: View, after: seq<nat>) {
    exists k: nat :: Pumped(port, q, before, posted, v, after, k)
  }

  lemma NothingPumped(port: Option<nat>, results: seq<Result>, posted: seq<nat>, v: View)
    requires v.inflight.None? && v.queue == [] && v.results == results
    ensures PumpedTo(port, [], results, posted, v, posted)
  {
    assert Pumped(port, [], results, posted, v, posted, 0);
  }

  lemma GaveUp(q: seq<Request>, before: seq<Result>, posted: seq<nat>, v: View)
    requires Pumped(None, q, before, [], v, [], 0)
    ensures v.inflight.None? ==> PumpedTo(None, q, before, posted, v, posted)
  {
    if v.inflight.None? {
      assert Pumped(None, q, before, posted, v, posted, 0);
    }
  }

  /** A port connected only now. */
  lemma PumpedAfterConnect(port: Option<nat>, q: seq<Request>, before: seq<Result>, posted: seq<nat>, v: View, after: seq<nat>)
    requires PumpedTo(port, q, before, posted, v, after)
    ensures PumpedTo(None, q, before, posted, v, after)
  {
    var k: nat :| Pumped(port, q, before, posted, v, after, k);
    assert Pumped(None, q, before, posted, v, after, k);
  }

  lemma PumpedOn(port: Option<nat>, q: seq<Request>, before: seq<Result>, posted: seq<nat>, v: View, after: seq<nat>)
    requires q != [] && PumpedTo(None, q[1..], before + [POST_FAILED], posted, v, after)
    ensures PumpedTo(port, q, before, posted, v, after)
  {
    var k: nat :| Pumped(None, q[1..], before + [POST_FAILED], posted, v, after, k);
    assert Pumped(port, q, before, posted, v, after, k + 1) by {
      PumpedOneMore(port, q, before, posted, v, after, k);
    }
  }

  lemma PumpedOneMore(port: Option<nat>, q: seq<Request>, before: seq<Result>, posted: seq<nat>, v: View, after: seq<nat>, k: nat)
    requires q != [] && Pumped(None, q[1..], before + [POST_FAILED], posted, v, after, k)
    ensures Pumped(port, q, before, posted, v, after, k + 1)
  {
    assert v.results[|before|] == (before + [POST_FAILED])[|before|];
  }

  /** A lane that has just been made. */
  function Blank(last: nat): View {
    View(None, [], None, false, None, [], [], last, last, {})
  }

  /**
   * What a call does to its lane: behind a request in flight the new one waits and nothing is posted;
   * otherwise it is pumped, alone, on the port that is open.
   */
  ghost predicate Called(before: View, r: Request, posted: seq<nat>, v: View, after: seq<nat>) {
    if before.inflight.Some? then after == posted && v == before.(queue := before.queue + [r], top := r.id)
    else PumpedTo(before.port, [r], before.results, posted, v, after)
  }

  class Pool {
    var lanes: map<string, Lane>
    var nextMsgId: nat
    /** Identity of the next port object the browser hands out. */
    var nextPort: nat

    /** Every lane ever created: timers and port listeners keep dropped lanes alive. */
    ghost var all: set<Lane>
    /** The lanes in the map. */
    ghost var live: set<Lane>
    /** Ids posted per key, in order. */
    ghost var posts: map<string, seq<nat>>

    ghost predicate LanesOk()
      reads this`all, this`live, this`nextMsgId, all
    {
      forall l :: l in all ==> Fine(l.V(), l in live, nextMsgId)
    }

    /** The map and the set of live lanes say the same. */
    ghost predicate MapOk()
      reads this`lanes, this`live, this`all
    {
      live <= all && (forall k {:trigger k in lanes} :: k in lanes ==> lanes[k] in live && lanes[k].key == k) &&
      forall l {:trigger l in live} :: l in live ==> l.key in lanes && lanes[l.key] == l
    }

    ghost predicate PostsOk()
      requires 1 <= nextMsgId
      reads this`posts, this`nextMsgId, this`live, this`all, all
    {
      (forall k :: k in posts ==> PostsUpTo(posts[k], nextMsgId - 1)) &&
      forall l :: l in live && l in all && l.key in posts ==> PostsUpTo(posts[l.key], l.floor)
    }

    ghost predicate Core()
      reads this, all
    {
      1 <= nextMsgId && MapOk() && LanesOk() && PostsOk()
    }

    /** The invariant between callbacks. */
    ghost predicate Valid()
      reads this, all
    {
      Core() && forall l :: l in all ==> Settled(l.V(), l in live)
    }

    ghost predicate OthersSettled(lane: Lane)
      reads this`all, this`live, all
    {
      forall l :: l in all && l != lane ==> Settled(l.V(), l in live)
    }

    /** The state in which `pump(lane)` runs: only this lane may have work waiting. */
    ghost predicate PumpReady(lane: Lane)
      reads this, all
    {
      Core() && lane in all && lane in live && lane.inflight.None? &&
      OthersSettled(lane)
    }

    ghost function Posted(key: string): seq<nat>
      reads this`posts
    {
      if key in posts then posts[key] else []
    }

    /** What was posted for the key of a live lane is older than what waits there. */
    lemma PostsBelow(lane: Lane)
      requires Core() && lane in live && lane.queue != []
      ensures PostsUpTo(Posted(lane.key), lane.floor)
      ensures PostsUpTo(Posted(lane.key), lane.queue[0].id)
      ensures PostsUpTo(Posted(lane.key) + [lane.queue[0].id], lane.queue[0].id)
      ensures lane.queue[0].id < nextMsgId
    {
      var s := Posted(lane.key);
      assert (s + [lane.queue[0].id])[..|s|] == s;
    }

    constructor ()
      ensures Valid() && lanes == map[] && all == {} && nextMsgId == 1
    {
      lanes, nextMsgId, nextPort := map[], 1, 0;
      all, live, posts := {}, {}, map[];
    }

    /** `if (lanes.get(key) === lane) lanes.delete(key)`. */
    method Drop(lane: Lane)
      requires MapOk()
      modifies this`lanes, this`live
      ensures MapOk() && live == old(live) - {lane}
    {
      if lane.key in lanes && lanes[lane.key] == lane { lanes := lanes - {lane.key}; }
      live := live - {lane};
    }

    /** Work on one lane that leaves it fine keeps the pool fine. */
    twostate lemma LaneChanged(lane: Lane)
      requires old(Core()) && lane in all && lanes == old(lanes) && live == old(live) && all == old(all)
      requires posts == old(posts) && old(nextMsgId) <= nextMsgId
      requires forall l :: l in all && l != lane ==> unchanged(l)
      requires Fine(lane.V(), lane in live, nextMsgId) && old(lane.floor) <= lane.floor
      ensures Core() && (old(OthersSettled(lane)) ==> OthersSettled(lane))
    {
      assert forall l :: l in all && l != lane ==> l.V() == old(l.V());
    }

    /** `connect()` may throw. */
    method EnsurePort(lane: Lane) returns (ok: bool)
      requires PumpReady(lane)
      modifies this`nextPort, lane`port, lane`open
      ensures PumpReady(lane) && (ok <==> lane.port.Some?) && Log(lane.V()) == old(Log(lane.V()))
      ensures old(lane.port).Some? ==> lane.port == old(lane.port)
    {
      if lane.port.Some? { return true; }
      var connected: bool := *;
      if !connected { return false; }
      lane.Connect(nextPort);
      nextPort := nextPort + 1;
      LaneChanged(lane);
      return true;
    }

    method GoIdle(lane: Lane)
      requires PumpReady(lane) && lane.queue == [] && lane.port.Some?
      modifies lane`idle
      ensures Valid() && Log(lane.V()) == old(Log(lane.V()))
    {
      lane.idle := true;
      LaneChanged(lane);
    }

    method Leave(lane: Lane)
      requires PumpReady(lane) && lane.queue == [] && lane.port.None?
      modifies this`lanes, this`live
      ensures Valid() && lane !in live
    {
      Drop(lane);
    }

    /** Nothing to send: the open port goes idle, or the lane is dropped. */
    method Rest(lane: Lane)
      requires PumpReady(lane) && lane.queue == []
      modifies this`lanes, this`live, lane`idle
      ensures Valid() && (lane in live <==> lane.port.Some?) && Log(lane.V()) == old(Log(lane.V()))
      ensures PumpedTo(lane.port, [], lane.results, Posted(lane.key), lane.V(), Posted(lane.key))
    {
      if lane.port.Some? { GoIdle(lane); } else { Leave(lane); }
      NothingPumped(lane.port, lane.results, Posted(lane.key), lane.V());
    }

    /** Everything waiting fails. */
    method FailWaiting(lane: Lane)
      requires PumpReady(lane) && lane.port.None?
      modifies lane`idle, lane`queue, lane`done, lane`results
      ensures PumpReady(lane) && Log(lane.V()) == old(Log(lane.V()))
      ensures Pumped(None, old(lane.queue), old(lane.results), [], lane.V(), [], 0)
    {
      lane.FailAll();
      LaneChanged(lane);
    }

    /** No connection: everything waiting fails and the lane is dropped. */
    method GiveUp(lane: Lane)
      requires PumpReady(lane) && lane.port.None?
      modifies this`lanes, this`live, lane`idle, lane`queue, lane`done, lane`results
      ensures Valid() && lane !in live && Log(lane.V()) == old(Log(lane.V())) && lane.queue == []
      ensures old(lane.results) <= lane.results
      ensures PumpedTo(None, old(lane.queue), old(lane.results), Posted(lane.key), lane.V(), Posted(lane.key))
    {
      FailWaiting(lane);
      GaveUp(old(lane.queue), old(lane.results), Posted(lane.key), lane.V());
      Rest(lane);
      GaveUp(old(lane.queue), old(lane.results), Posted(lane.key), lane.V());
    }

    /** The next request goes in flight. */
    method Take(lane: Lane) returns (next: Request)
      requires PumpReady(lane) && lane.port.Some? && lane.queue != []
      modifies lane`idle, lane`queue, lane`inflight, lane`timer, lane`floor
      ensures Valid() && lane.inflight == Some(next) && lane.floor == next.id < nextMsgId
      ensures next == old(lane.queue)[0] && lane.queue == old(lane.queue)[1..]
      ensures Log(lane.V()) == old(Log(lane.V()))
      ensures PostsUpTo(Posted(lane.key) + [next.id], next.id)
    {
      PostsBelow(lane);
      next := lane.TakeHead();
      LaneChanged(lane);
    }

    /** What the browser saw posted for the key. */
    ghost method RecordPost(lane: Lane)
      requires Valid() && lane in live
      requires PostsUpTo(Posted(lane.key) + [lane.floor], lane.floor)
      modifies this`posts
      ensures Valid() && Posted(lane.key) == old(Posted(lane.key)) + [lane.floor]
      ensures posts - {lane.key} == old(posts) - {lane.key}
    {
      assert forall l :: l in live && l != lane ==> l.key != lane.key;
      posts := posts[lane.key := Posted(lane.key) + [lane.floor]];
    }

    /** The next request goes out on the open port. */
    method Send(lane: Lane)
      requires PumpReady(lane) && lane.port.Some? && lane.queue != []
      modifies this`posts, lane`idle, lane`queue, lane`inflight, lane`timer, lane`floor
      ensures Valid() && lane.inflight == Some(old(lane.queue)[0]) && lane.queue == old(lane.queue)[1..]
      ensures Log(lane.V()) == old(Log(lane.V()))
      ensures posts - {lane.key} == old(posts) - {lane.key}
      ensures PumpedTo(lane.port, old(lane.queue), lane.results, old(Posted(lane.key)), lane.V(), Posted(lane.key))
    {
      ghost var q, before, posted := lane.queue, lane.results, Posted(lane.key);
      var next := Take(lane);
      RecordPost(lane);
      assert Pumped(lane.port, q, before, posted, lane.V(), Posted(lane.key), 0);
    }

    /** `postMessage` threw: the request fails and the port is given up. */
    method SendFailed(lane: Lane)
      requires PumpReady(lane) && lane.port.Some? && lane.queue != []
      modifies lane
      ensures PumpReady(lane) && lane.queue == old(lane.queue)[1..] && lane.port.None?
      ensures lane.results == old(lane.results) + [POST_FAILED]
      ensures Log(lane.V()) == old(Log(lane.V()))
    {
      PostsBelow(lane);
      lane.PostFailed();
      LaneChanged(lane);
    }

    /** A port for the next request; without one everything waiting fails. */
    method Reach(lane: Lane) returns (ok: bool)
      requires PumpReady(lane) && lane.queue != []
      modifies this`lanes, this`live, this`nextPort, lane
      ensures Log(lane.V()) == old(Log(lane.V()))
      ensures ok ==> PumpReady(lane) && lane.port.Some? && lane.queue == old(lane.queue) && lane.results == old(lane.results)
      ensures ok && old(lane.port).Some? ==> lane.port == old(lane.port)
      ensures !ok ==> Valid() && old(lane.port).None? &&
                      PumpedTo(None, old(lane.queue), old(lane.results), Posted(lane.key), lane.V(), Posted(lane.key))
    {
      ok := EnsurePort(lane);
      if !ok { GiveUp(lane); }
    }

    /** One try at posting; true when it threw and the next request is to be tried. */
    method TryPost(lane: Lane) returns (again: bool)
      requires PumpReady(lane) && lane.port.Some? && lane.queue != []
      modifies this`posts, lane
      ensures Log(lane.V()) == old(Log(lane.V()))
      ensures again ==> PumpReady(lane) && lane.queue == old(lane.queue)[1..] && lane.port.None? && posts == old(posts)
      ensures again ==> lane.results == old(lane.results) + [POST_FAILED]
      ensures !again ==> Valid() && posts - {lane.key} == old(posts) - {lane.key}
      ensures !again ==>
        PumpedTo(old(lane.port), old(lane.queue), old(lane.results), old(Posted(lane.key)), lane.V(), Posted(lane.key))
    {
      again := *;
      if again { SendFailed(lane); } else { Send(lane); }
    }

    /** Sends the next waiting request of the lane, or leaves the lane idle or dropped. */
    method Pump(lane: Lane)
      requires PumpReady(lane)
      modifies this`lanes, this`live, this`nextPort, this`posts, lane
      ensures Valid() && Log(lane.V()) == old(Log(lane.V())) && posts - {lane.key} == old(posts) - {lane.key}
      ensures PumpedTo(old(lane.port), old(lane.queue), old(lane.results), old(Posted(lane.key)), lane.V(), Posted(lane.key))
      decreases |lane.queue|
    {
      ghost var port, q, before, posted := lane.port, lane.queue, lane.results, Posted(lane.key);
      if lane.queue == [] {
        Rest(lane);
        return;
      }
      var ok := Reach(lane);
      if !ok { return; }
      ghost var open := lane.port;
      var again := TryPost(lane);
      if again {
        Pump(lane);
        PumpedOn(port, q, before, posted, lane.V(), Posted(lane.key));
      } else if port.None? {
        PumpedAfterConnect(open, q, before, posted, lane.V(), Posted(lane.key));
      }
    }

    // ----- The callbacks -----

    /** An empty lane enters the map. */
    method Register(lane: Lane)
      requires Valid() && lane in all && lane !in live && lane.key !in lanes
      requires lane.V() == Blank(nextMsgId - 1)
      modifies this`lanes, this`live
      ensures PumpReady(lane)
    {
      assert forall l :: l in live ==> l.key != lane.key;
      lanes := lanes[lane.key := lane];
      live := live + {lane};
    }

    /** A lane outside the map. */
    method Enlist(lane: Lane)
      requires Valid() && lane !in all
      requires lane.V() == Blank(nextMsgId - 1)
      modifies this`all
      ensures Valid() && all == old(all) + {lane}
    {
      all := all + {lane};
    }

    method NewLane(key: string) returns (lane: Lane)
      requires Valid() && key !in lanes
      modifies this`lanes, this`all, this`live
      ensures fresh(lane) && all == old(all) + {lane} && PumpReady(lane) && lane.key == key
      ensures lane.V() == Blank(nextMsgId - 1)
    {
      lane := new Lane(key, nextMsgId - 1);
      assert forall l :: l in all ==> l.V() == old(l.V());
      Enlist(lane);
      Register(lane);
    }

    /** The new request joins its lane, last. */
    method Accept(lane: Lane, action: string, payload: string) returns (id: nat)
      requires Core() && lane in all && lane in live
      requires OthersSettled(lane)
      modifies this`nextMsgId, lane`queue, lane`top
      ensures id == old(nextMsgId) && nextMsgId == id + 1
      ensures Core() && lane.V() == old(lane.V()).(queue := old(lane.queue) + [Request(id, action, payload)], top := id)
      ensures OthersSettled(lane)
      ensures Log(lane.V()) == old(Log(lane.V())) + [Request(id, action, payload)]
    {
      id := nextMsgId;
      lane.Enqueue(Request(id, action, payload));
      nextMsgId := nextMsgId + 1;
      LaneChanged(lane);
    }

    /**
     * `call`: the request is logged last in the lane of its key and given the next id. Behind a request in
     * flight it waits; otherwise it is pumped at once, on the lane's open port if there is one.
     */
    method Call(key: string, action: string, payload: string) returns (lane: Lane, id: nat)
      requires Valid()
      modifies this, if key in lanes then {lanes[key]} else {}
      ensures Valid() && id == old(nextMsgId) && nextMsgId == id + 1
      ensures lane in all && old(all) <= all <= old(all) + {lane} && lane.key == key
      ensures if key in old(lanes) then lane == old(lanes)[key] else fresh(lane)
      ensures Log(lane.V()) ==
                (if key in old(lanes) then old(Log(lanes[key].V())) else []) + [Request(id, action, payload)]
      ensures Called(if key in old(lanes) then old(lanes[key].V()) else Blank(id - 1), Request(id, action, payload),
                     old(Posted(key)), lane.V(), Posted(key)) && posts - {key} == old(posts) - {key}
      ensures forall l :: l in old(all) && l != lane ==> l.V() == old(l.V())
    {
      lane := LaneFor(key);
      id := Submit(lane, action, payload);
    }

    method LaneFor(key: string) returns (lane: Lane)
      requires Valid()
      modifies this`lanes, this`all, this`live
      ensures Core() && lane in all && lane in live && lane.key == key && old(all) <= all <= old(all) + {lane}
      ensures OthersSettled(lane) && (lane.inflight.None? ==> lane.queue == [])
      ensures if key in old(lanes) then lane == old(lanes)[key] && lane in old(all)
              else fresh(lane) && lane.V() == Blank(nextMsgId - 1)
      ensures forall l :: l in old(all) ==> l.V() == old(l.V())
    {
      if key in lanes {
        lane := lanes[key];
      } else {
        lane := NewLane(key);
      }
    }

    /** Behind a request in flight the new one waits. */
    method Wait(lane: Lane, action: string, payload: string) returns (id: nat)
      requires Core() && lane in all && lane in live && OthersSettled(lane) && lane.inflight.Some?
      modifies this`nextMsgId, lane`queue, lane`top
      ensures Valid() && id == old(nextMsgId) && nextMsgId == id + 1
      ensures lane.V() == old(lane.V()).(queue := old(lane.queue) + [Request(id, action, payload)], top := id)
      ensures Log(lane.V()) == old(Log(lane.V())) + [Request(id, action, payload)]
    {
      id := Accept(lane, action, payload);
    }

    /** With nothing in flight the new request is pumped at once. */
    method GoAhead(lane: Lane, action: string, payload: string) returns (id: nat)
      requires PumpReady(lane) && lane.queue == []
      modifies this`lanes, this`live, this`nextPort, this`posts, this`nextMsgId, lane
      ensures Valid() && id == old(nextMsgId) && nextMsgId == id + 1 && posts - {lane.key} == old(posts) - {lane.key}
      ensures Log(lane.V()) == old(Log(lane.V())) + [Request(id, action, payload)]
      ensures PumpedTo(old(lane.port), [Request(id, action, payload)], old(lane.results), old(Posted(lane.key)), lane.V(),
                       Posted(lane.key))
    {
      id := Accept(lane, action, payload);
      assert lane.queue == [Request(id, action, payload)];
      Pump(lane);
    }

    /** Queues the request and pumps, which does nothing while another one is in flight. */
    method Submit(lane: Lane, action: string, payload: string) returns (id: nat)
      requires Core() && lane in all && lane in live
      requires OthersSettled(lane) && (lane.inflight.None? ==> lane.queue == [])
      modifies this`lanes, this`live, this`nextPort, this`posts, this`nextMsgId, lane
      ensures Valid() && id == old(nextMsgId) && nextMsgId == id + 1 && posts - {lane.key} == old(posts) - {lane.key}
      ensures Log(lane.V()) == old(Log(lane.V())) + [Request(id, action, payload)]
      ensures Called(old(lane.V()), Request(id, action, payload), old(Posted(lane.key)), lane.V(), Posted(lane.key))
    {
      if lane.inflight.Some? {
        id := Wait(lane, action, payload);
      } else {
        id := GoAhead(lane, action, payload);
      }
    }

    /** The request in flight is resolved, and the lane ready to go on. */
    method Resolve(lane: Lane, result: Result)
      requires Valid() && lane in all && lane.inflight.Some?
      modifies lane
      ensures PumpReady(lane) && Log(lane.V()) == old(Log(lane.V())) && lane.results == old(lane.results) + [result]
      ensures lane.queue == old(lane.queue) && lane.port == old(lane.port)
    {
      lane.SettleInflight(result);
      LaneChanged(lane);
    }

    /** A reply on some port the lane has had: only the current port and the id in flight count. */
    method OnMessage(lane: Lane, port: nat, msgId: nat, result: Result)
      requires Valid() && lane in all
      modifies this`lanes, this`live, this`nextPort, this`posts, lane
      ensures Valid() && Log(lane.V()) == old(Log(lane.V())) && posts - {lane.key} == old(posts) - {lane.key}
      ensures old(lane.port) == Some(port) && old(lane.inflight).Some? && old(lane.inflight).value.id == msgId ==>
                PumpedTo(Some(port), old(lane.queue), old(lane.results) + [result], old(Posted(lane.key)), lane.V(),
                         Posted(lane.key))
      ensures !(old(lane.port) == Some(port) && old(lane.inflight).Some? && old(lane.inflight).value.id == msgId) ==>
                lanes == old(lanes) && posts == old(posts) && lane.V() == old(lane.V())
    {
      if lane.port != Some(port) { return; }
      if lane.inflight.None? || msgId != lane.inflight.value.id { return; }
      Resolve(lane, result);
      Pump(lane);
    }

    /** The lane without its port, ready to go on. */
    method CutOff(lane: Lane)
      requires Valid() && lane in all && lane.port.Some?
      modifies lane
      ensures PumpReady(lane) && Log(lane.V()) == old(Log(lane.V())) && lane.queue == old(lane.queue) && lane.port.None?
      ensures lane.results == old(lane.results) + if old(lane.inflight).Some? then [Result(false, "port disconnected")] else []
    {
      lane.PortGone();
      LaneChanged(lane);
    }

    /** `onDisconnect` of some port the lane has had. */
    method OnDisconnect(lane: Lane, port: nat)
      requires Valid() && lane in all
      modifies this`lanes, this`live, this`nextPort, this`posts, lane
      ensures Valid() && Log(lane.V()) == old(Log(lane.V())) && posts - {lane.key} == old(posts) - {lane.key}
      ensures old(lane.port) == Some(port) ==>
                PumpedTo(None, old(lane.queue),
                         old(lane.results) + (if old(lane.inflight).Some? then [Result(false, "port disconnected")] else []),
                         old(Posted(lane.key)), lane.V(), Posted(lane.key))
      ensures old(lane.port) != Some(port) ==> lanes == old(lanes) && posts == old(posts) && lane.V() == old(lane.V())
    {
      if lane.port != Some(port) { return; }
      CutOff(lane);
      Pump(lane);
    }

    method TimedOut(lane: Lane)
      requires Valid() && lane in all && lane.inflight.Some?
      modifies lane
      ensures PumpReady(lane) && Log(lane.V()) == old(Log(lane.V())) && lane.queue == old(lane.queue) && lane.port.None?
      ensures lane.results == old(lane.results) + [Result(false, "timeout")]
    {
      lane.SettleInflight(Result(false, "timeout"));
      lane.ClosePort();
      LaneChanged(lane);
    }

    /** The timeout of request `id` of the lane fires; only an armed timer does. */
    method OnTimeout(lane: Lane, id: nat)
      requires Valid() && lane in all && lane.timer == Some(id)
      modifies this`lanes, this`live, this`nextPort, this`posts, lane
      ensures Valid() && Log(lane.V()) == old(Log(lane.V())) && posts - {lane.key} == old(posts) - {lane.key}
      ensures PumpedTo(None, old(lane.queue), old(lane.results) + [Result(false, "timeout")], old(Posted(lane.key)), lane.V(),
                       Posted(lane.key))
      ensures old(lane.inflight).Some? && old(lane.inflight).value.id == id
    {
      TimedOut(lane);
      Pump(lane);
    }

    /** The idle timer of the lane fires. */
    method OnIdle(lane: Lane)
      requires Valid() && lane in all && lane.idle
      modifies this`lanes, this`live, lane`idle, lane`port, lane`open
      ensures Valid() && Log(lane.V()) == old(Log(lane.V())) && lane !in live && lane.port.None?
    {
      lane.idle := false;
      if lane.inflight.Some? || lane.queue != [] { return; }
      Expire(lane);
    }

    /** An unused lane gives up its port and leaves the map. */
    method Expire(lane: Lane)
      requires Core() && lane in all && lane.inflight.None? && lane.queue == []
      requires OthersSettled(lane)
      modifies this`lanes, this`live, lane`port, lane`open
      ensures Valid() && Log(lane.V()) == old(Log(lane.V())) && lane !in live && lane.port.None?
    {
      lane.ClosePort();
      Drop(lane);
    }

    // ----- What the invariant says of the whole pool -----

    /** Each key has at most one open port and at most one request in flight, both on the lane in the map. */
    lemma OnePerKey(a: Lane, b: Lane)
      requires Valid() && a in all && b in all && a.key == b.key && a != b
      ensures |a.open| <= 1
      ensures a.open == {} || b.open == {}
      ensures a.inflight.None? || b.inflight.None?
    {
    }

    /** The k-th result answers the k-th request; what is in flight comes next. */
    lemma ResultsAnswer(l: Lane, k: nat)
      requires Valid() && l in all && k <= |l.results|
      ensures k < |l.results| ==> Log(l.V())[k] == l.done[k]
      ensures k == |l.results| && l.inflight.Some? ==> Log(l.V())[k] == l.inflight.value
    {
    }

    /** Nothing waits for ever: a request not resolved is in flight with its timer armed, or behind one that is. */
    lemma NothingStrands(l: Lane)
      requires Valid() && l in all && |l.results| < |Log(l.V())|
      ensures l in live && l.inflight.Some? && l.timer == Some(l.inflight.value.id) && l.port.Some?
    {
    }
  }
}
