/**
 The outbound side of the bridge: a bounded FIFO of payloads with a
 drop-oldest overflow policy, drained by a worker that hands the head to the
 broker while the client is connected.

 The client's mutex, condition variable and worker thread are abstracted
 away: `Publish` is the producer's critical section, `DrainCycle` is one
 iteration of the worker loop, and the broker is an oracle of return codes.
 */
module MqttClient {

  /** Return code of a successful `mosquitto_publish`. */
  const MosqErrSuccess: int := 0

  /** The state the producer, the worker and the broker callbacks share. */
  datatype ClientState = ClientState(
    queue: seq<string>,   // oldest payload first
    droppedCount: nat,    // payloads evicted since the queue last drained empty
    connected: bool,      // set by the broker callbacks
    running: bool)        // the shared shutdown flag

  /** The shape every operation keeps for a queue of capacity `queueSize`. */
  predicate Valid(s: ClientState, queueSize: nat) {
    |s.queue| <= queueSize && (s.queue == [] ==> s.droppedCount == 0)
  }

  /** The last `n` elements of `xs` (all of them when there are fewer). */
  function LastN<T>(xs: seq<T>, n: nat): (r: seq<T>)
    ensures |r| == if |xs| <= n then |xs| else n
    ensures r == xs[|xs| - |r|..]
  {
    if |xs| <= n then xs else xs[|xs| - n..]
  }

  // ---------------------------------------------------------------------
  // Producer
  // ---------------------------------------------------------------------

  /**
   Enqueue one payload. A full queue first loses its oldest payload and the
   drop counter records it. `std::queue::pop` on an empty queue is undefined,
   which a zero capacity with an empty queue would reach.
   */
  function Publish(s: ClientState, queueSize: nat, payload: string): (r: ClientState)
    requires queueSize > 0 || s.queue != []
    // the new payload is the newest element
    ensures |r.queue| > 0 && r.queue[|r.queue| - 1] == payload
    // only the front of the old queue is removed, and exactly one element
    // when (and only when) the queue was full
    ensures |s.queue| >= queueSize ==> |r.queue| == |s.queue| && r.droppedCount == s.droppedCount + 1
    ensures |s.queue| < queueSize ==> |r.queue| == |s.queue| + 1 && r.droppedCount == s.droppedCount
    ensures r.queue == (s.queue + [payload])[|s.queue| + 1 - |r.queue|..]
    ensures r.connected == s.connected && r.running == s.running
  {
    if |s.queue| >= queueSize then
      s.(queue := s.queue[1..] + [payload], droppedCount := s.droppedCount + 1)
    else
      s.(queue := s.queue + [payload])
  }

  /** Publish a batch of payloads one after the other. */
  function PublishAll(s: ClientState, queueSize: nat, payloads: seq<string>): (r: ClientState)
    requires queueSize > 0 || s.queue != []
    ensures |r.queue| <= if |s.queue| < queueSize then queueSize else |s.queue|
    ensures r.connected == s.connected && r.running == s.running
    decreases |payloads|
  {
    if payloads == [] then s
    else PublishAll(Publish(s, queueSize, payloads[0]), queueSize, payloads[1..])
  }

  /** With a positive capacity, publishing keeps the newest `queueSize` payloads. */
  lemma PublishKeepsNewest(s: ClientState, queueSize: nat, payload: string)
    requires queueSize > 0 && |s.queue| <= queueSize
    ensures Publish(s, queueSize, payload).queue == LastN(s.queue + [payload], queueSize)
  {
  }

  /** With a positive capacity, publishing never breaks the queue shape. */
  lemma PublishKeepsValid(s: ClientState, queueSize: nat, payload: string)
    requires queueSize > 0 && Valid(s, queueSize)
    ensures Valid(Publish(s, queueSize, payload), queueSize)
  {
  }

  /** Keeping the last `n` of a long enough suffix is keeping the last `n`. */
  lemma LastNOfSuffix<T>(zs: seq<T>, k: nat, n: nat)
    requires k <= |zs| && (|zs| - k >= n || k == 0)
    ensures LastN(zs[k..], n) == LastN(zs, n)
  {
  }

  /** Truncating before appending does not change the last `n` elements. */
  lemma {:induction false} LastNAppend<T>(xs: seq<T>, ys: seq<T>, n: nat)
    ensures LastN(LastN(xs, n) + ys, n) == LastN(xs + ys, n)
  {
    var k := |xs| - |LastN(xs, n)|;
    assert LastN(xs, n) + ys == (xs + ys)[k..];
    if k > 0 {
      assert |LastN(xs, n)| == n;
    }
    LastNOfSuffix(xs + ys, k, n);
  }

  /**
   Publishing a batch into a queue of capacity `queueSize` leaves exactly the
   last `queueSize` payloads of the old queue followed by the batch, in their
   original order.
   */
  lemma {:induction false} PublishAllKeepsNewest(s: ClientState, queueSize: nat, payloads: seq<string>)
    requires queueSize > 0 && |s.queue| <= queueSize
    ensures PublishAll(s, queueSize, payloads).queue == LastN(s.queue + payloads, queueSize)
    decreases |payloads|
  {
    if payloads != [] {
      var p0, rest := payloads[0], payloads[1..];
      var s1 := Publish(s, queueSize, p0);
      var xs := s.queue + [p0];
      assert xs + rest == s.queue + payloads by {
        assert payloads == [p0] + rest;
      }
      calc {
        PublishAll(s, queueSize, payloads).queue;
        PublishAll(s1, queueSize, rest).queue;
        { PublishAllKeepsNewest(s1, queueSize, rest); }
        LastN(s1.queue + rest, queueSize);
        { PublishKeepsNewest(s, queueSize, p0); }
        LastN(LastN(xs, queueSize) + rest, queueSize);
        { LastNAppend(xs, rest, queueSize); }
        LastN(xs + rest, queueSize);
      }
    }
  }

  /**
   With no worker iteration in between, every payload that is published but
   no longer queued was evicted, and the drop counter has counted each of
   them.
   */
  lemma {:induction false} PublishAllCountsDrops(s: ClientState, queueSize: nat, payloads: seq<string>)
    requires queueSize > 0 && |s.queue| <= queueSize
    ensures var r := PublishAll(s, queueSize, payloads);
      r.droppedCount == s.droppedCount + |s.queue| + |payloads| - |r.queue|
    decreases |payloads|
  {
    if payloads != [] {
      PublishAllCountsDrops(Publish(s, queueSize, payloads[0]), queueSize, payloads[1..]);
    }
  }

  // ---------------------------------------------------------------------
  // Worker
  // ---------------------------------------------------------------------

  /** What the inner publish loop leaves behind. */
  datatype Pass = Pass(remaining: seq<string>, attempted: seq<string>)

  /**
   The inner loop of the worker: hand the head to the broker, pop it on
   success, stop at the first failure with the head still in place. The
   i-th attempt gets the i-th return code.
   */
  function PublishLoop(queue: seq<string>, rcs: seq<int>): (p: Pass)
    requires |rcs| >= |queue|
    ensures |p.remaining| <= |queue|
    decreases |queue|
  {
    if queue == [] then Pass([], [])
    else if rcs[0] == MosqErrSuccess then
      var rest := PublishLoop(queue[1..], rcs[1..]);
      Pass(rest.remaining, [queue[0]] + rest.attempted)
    else
      Pass(queue, [queue[0]])
  }

  /**
   The inner loop pops exactly the payloads the broker accepted, which form a
   prefix of the queue, and stops only when the queue is empty or at the
   first failed attempt, whose payload is then still at the head.
   */
  lemma {:induction false} PublishLoopPopsAcceptedPrefix(queue: seq<string>, rcs: seq<int>)
    requires |rcs| >= |queue|
    ensures var p := PublishLoop(queue, rcs);
      var k := |queue| - |p.remaining|;
      && p.remaining == queue[k..]
      && (forall i :: 0 <= i < k ==> rcs[i] == MosqErrSuccess)
      && (p.remaining != [] ==> rcs[k] != MosqErrSuccess)
      && p.attempted == queue[..k] + (if p.remaining == [] then [] else [p.remaining[0]])
    decreases |queue|
  {
    if queue != [] && rcs[0] == MosqErrSuccess {
      var tail, tailRcs := queue[1..], rcs[1..];
      PublishLoopPopsAcceptedPrefix(tail, tailRcs);
      var rest := PublishLoop(tail, tailRcs);
      var k := |queue| - |rest.remaining|;
      assert rest.remaining == tail[k - 1..] == queue[k..];
      forall i | 0 <= i < k
        ensures rcs[i] == MosqErrSuccess
      {
        if i > 0 {
          assert rcs[i] == tailRcs[i - 1];
        }
      }
      assert rest.remaining != [] ==> rcs[k] == tailRcs[k - 1];
      assert [queue[0]] + tail[..k - 1] == queue[..k];
    }
  }

  /** The outcome of one worker iteration. */
  datatype Drain = Drain(
    state: ClientState,
    attempted: seq<string>,   // payloads handed to the broker, in order
    delivered: seq<string>)   // those the broker accepted

  /**
   One iteration of the worker loop. It proceeds only once the client is
   connected and the queue is non-empty (otherwise it is blocked, or it has
   stopped because shutdown began), then publishes from the head, and
   finally clears the drop counter if the queue drained empty. Connectivity
   and the shutdown flag are taken as fixed during one iteration.
   */
  function DrainCycle(s: ClientState, rcs: seq<int>): (r: Drain)
    requires |rcs| >= |s.queue|
    // something is sent exactly when the worker is past both waits, and it
    // always starts with the current head
    ensures r.attempted != [] <==> s.running && s.connected && s.queue != []
    ensures r.attempted != [] ==> r.attempted[0] == s.queue[0]
    // delivered payloads are a prefix of the queue; with no publish during
    // the iteration, nothing else is lost
    ensures s.queue == r.delivered + r.state.queue
    ensures forall i :: 0 <= i < |r.delivered| ==> rcs[i] == MosqErrSuccess
    // a failed attempt ends the cycle with that payload still at the head
    ensures r.attempted == r.delivered || (r.state.queue != [] && r.attempted == r.delivered + [r.state.queue[0]])
    ensures r.attempted != r.delivered ==> rcs[|r.delivered|] != MosqErrSuccess
    ensures r.attempted == r.delivered && r.attempted != [] ==> r.state.queue == []
    // the drop counter is cleared exactly when the cycle empties the queue
    ensures r.attempted != [] ==> r.state.droppedCount == (if r.state.queue == [] then 0 else s.droppedCount)
    ensures r.attempted == [] ==> r.state == s && r.delivered == []
    ensures r.state.connected == s.connected && r.state.running == s.running
  {
    if !s.running || !s.connected || s.queue == [] then
      Drain(s, [], [])
    else
      var p := PublishLoop(s.queue, rcs);
      PublishLoopPopsAcceptedPrefix(s.queue, rcs);
      var k := |s.queue| - |p.remaining|;
      assert s.queue == s.queue[..k] + s.queue[k..];
      Drain(s.(queue := p.remaining, droppedCount := if p.remaining == [] then 0 else s.droppedCount),
            p.attempted, s.queue[..k])
  }

  /** A worker iteration never breaks the queue shape. */
  lemma DrainKeepsValid(s: ClientState, queueSize: nat, rcs: seq<int>)
    requires |rcs| >= |s.queue| && Valid(s, queueSize)
    ensures Valid(DrainCycle(s, rcs).state, queueSize)
  {
  }

  /**
   A failed publish loses nothing: the next worker iteration that gets to
   send starts again with the very same payload.
   */
  lemma FailedHeadIsRetried(s: ClientState, rcs: seq<int>, later: seq<int>)
    requires |rcs| >= |s.queue| && s.running && s.connected && s.queue != []
    requires rcs[0] != MosqErrSuccess
    ensures DrainCycle(s, rcs).state == s
    ensures |later| >= |s.queue| ==> DrainCycle(DrainCycle(s, rcs).state, later).attempted[0] == s.queue[0]
  {
  }

  // ---------------------------------------------------------------------
  // Broker callbacks
  // ---------------------------------------------------------------------

  /** Connect callback: only a successful connect marks the client connected. */
  function OnConnect(s: ClientState, rc: int): (r: ClientState)
    ensures rc == 0 ==> r.connected
    ensures rc != 0 ==> r.connected == s.connected
    ensures r.queue == s.queue && r.droppedCount == s.droppedCount && r.running == s.running
  {
    if rc == 0 then s.(connected := true) else s
  }

  /** Disconnect callback: whatever the reason code, the client is disconnected. */
  function OnDisconnect(s: ClientState, rc: int): (r: ClientState)
    ensures !r.connected
    ensures r.queue == s.queue && r.droppedCount == s.droppedCount && r.running == s.running
  {
    s.(connected := false)
  }

  /** After a disconnect the worker sends nothing and changes nothing. */
  lemma DisconnectHaltsDelivery(s: ClientState, rc: int, rcs: seq<int>)
    requires |rcs| >= |s.queue|
    ensures var d := OnDisconnect(s, rc); DrainCycle(d, rcs) == Drain(d, [], [])
  {
  }

  /** When the broker accepts every publish, one worker iteration empties the queue in order. */
  lemma DrainAllAccepted(s: ClientState, rcs: seq<int>)
    requires s.running && s.connected && s.queue != []
    requires |rcs| >= |s.queue| && forall i :: 0 <= i < |rcs| ==> rcs[i] == MosqErrSuccess
    ensures var d := DrainCycle(s, rcs);
      d.delivered == s.queue && d.state.queue == [] && d.state.droppedCount == 0
  {
    var d := DrainCycle(s, rcs);
    assert |d.delivered| < |rcs| ==> rcs[|d.delivered|] == MosqErrSuccess;
    assert d.attempted == d.delivered;
  }

  /** An empty queue, nothing dropped, broker not connected, not shut down. */
  const Idle: ClientState := ClientState([], 0, false, true)

  /**
   Publishing into an idle client keeps the newest `queueSize` payloads in
   order and counts the rest as dropped.
   */
  lemma BacklogKeepsNewest(queueSize: nat, payloads: seq<string>)
    requires queueSize > 0
    ensures var s := PublishAll(Idle, queueSize, payloads);
      && s.queue == LastN(payloads, queueSize)
      && s.droppedCount == (if |payloads| > queueSize then |payloads| - queueSize else 0)
      && !s.connected && s.running
  {
    PublishAllKeepsNewest(Idle, queueSize, payloads);
    PublishAllCountsDrops(Idle, queueSize, payloads);
    assert Idle.queue + payloads == payloads;
  }

  /**
   Payloads published while the broker is away are all delivered, oldest
   surviving first, once a connect succeeds and the broker accepts every
   publish: the worker delivers exactly the last `queueSize` payloads and the
   drop counter goes back to zero.
   */
  lemma BacklogDeliveredAfterConnect(queueSize: nat, payloads: seq<string>, rcs: seq<int>)
    requires queueSize > 0 && payloads != []
    requires |rcs| >= queueSize && forall i :: 0 <= i < |rcs| ==> rcs[i] == MosqErrSuccess
    ensures var s := OnConnect(PublishAll(Idle, queueSize, payloads), 0);
      && |rcs| >= |s.queue|
      && DrainCycle(s, rcs).delivered == LastN(payloads, queueSize)
      && DrainCycle(s, rcs).state.queue == []
      && DrainCycle(s, rcs).state.droppedCount == 0
  {
    BacklogKeepsNewest(queueSize, payloads);
    var s := OnConnect(PublishAll(Idle, queueSize, payloads), 0);
    DrainAllAccepted(s, rcs);
  }

  /** Capacity 2, payloads A, B, C published while disconnected: B then C are delivered. */
  lemma DropOldestScenario()
    ensures var s := PublishAll(Idle, 2, ["A", "B", "C"]);
      && s.droppedCount == 1
      && DrainCycle(OnConnect(s, 0), [0, 0]).delivered == ["B", "C"]
  {
    BacklogKeepsNewest(2, ["A", "B", "C"]);
    BacklogDeliveredAfterConnect(2, ["A", "B", "C"], [0, 0]);
    assert LastN(["A", "B", "C"], 2) == ["B", "C"];
  }
}
