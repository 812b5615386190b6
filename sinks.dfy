/** One sink of the fan-out publisher
    (feedhandler/src/publishers/fanout_publisher.py), stated as functions of
    its state: the overload rule of `publish`, the reconnect state machine of
    `_ensure_connected`, and one iteration of `_worker`. The sink's callbacks
    are scripted: each call of `connect_fn`, `is_ready_fn` or `publish_fn`
    takes the next outcome from its script. Durations are whole milliseconds. */
module Sinks {
  import opened Values

  /** `DropPolicy`. */
  datatype Policy = DropOldest | DropNewest | Block

  /** `SinkConfig`, with each optional callback reduced to whether it is set. */
  datatype SinkConfig = SinkConfig(
    name: string,
    hasConnect: bool,
    hasReady: bool,
    hasClose: bool,
    maxQueue: int,
    retryTimes: int,
    reconnectInitialMs: nat,
    reconnectMaxMs: nat,
    requeueOnFailure: bool)

  /** A config with the dataclass defaults: a queue of 10000, one retry,
      0.5 s reconnect backoff, no requeue. */
  function DefaultConfig(name: string, hasConnect: bool, hasReady: bool, hasClose: bool): (cfg: SinkConfig)
    ensures cfg.name == name && cfg.maxQueue == 10000 && cfg.retryTimes == 1
    ensures cfg.reconnectInitialMs == cfg.reconnectMaxMs == 500 && !cfg.requeueOnFailure
  {
    SinkConfig(name, hasConnect, hasReady, hasClose, 10000, 1, 500, 500, false)
  }

  /** A queued `(table, data)` pair. */
  datatype Entry = Entry(table: Value, data: Value)

  /** The `(None, None)` pair `close` enqueues to stop a worker. */
  predicate IsSentinel(e: Entry)
  {
    e.table == Null && e.data == Null
  }

  /** What `last_err` records: which step failed (the exception text is not modelled). */
  datatype ErrorKind = ConnectFailed | ReadyFailed | RecoverableFailure | FatalFailure

  /** `_SinkState` without its thread: the queue's contents, the connection
      flag, the backoff and the counters. */
  datatype SinkState = SinkState(
    queue: seq<Entry>,
    connected: bool,
    backoffMs: int,
    enq: nat,
    sent: nat,
    dropped: nat,
    errors: nat,
    lastErr: Option<ErrorKind>)

  /** The state `_start_workers` creates for a sink. */
  function Initial(cfg: SinkConfig): (st: SinkState)
    ensures st.queue == [] && !st.connected && st.backoffMs == cfg.reconnectInitialMs
    ensures st.enq == st.sent == st.dropped == st.errors == 0 && st.lastErr == None
  {
    SinkState([], false, cfg.reconnectInitialMs, 0, 0, 0, 0, None)
  }

  /** `Queue.full()`: a queue with `maxsize <= 0` is unbounded. */
  predicate Full(maxQueue: int, q: seq<Entry>)
  {
    0 < maxQueue <= |q|
  }

  /** The queue holds no more than its `maxsize`. */
  predicate Bounded(maxQueue: int, q: seq<Entry>)
  {
    maxQueue <= 0 || |q| <= maxQueue
  }

  // ---------- publish ----------

  /** What one iteration of `publish`'s loop does to one sink. */
  function Offer(policy: Policy, maxQueue: int, st: SinkState, e: Entry): (r: SinkState)
  {
    var st1 := if policy == DropOldest && Full(maxQueue, st.queue)
               then st.(queue := st.queue[1..], dropped := st.dropped + 1)
               else st;
    if policy == DropNewest && Full(maxQueue, st1.queue) then st1.(dropped := st1.dropped + 1)
    else if Full(maxQueue, st1.queue) then st1.(dropped := st1.dropped + 1)  // put_nowait raised queue.Full
    else st1.(queue := st1.queue + [e], enq := st1.enq + 1)
  }

  /** The overload rule of `publish` for one sink. */
  lemma OfferRule(policy: Policy, maxQueue: int, st: SinkState, e: Entry)
    // drop_oldest on a full queue: the head goes, the entry is appended
    ensures policy == DropOldest && Full(maxQueue, st.queue) && Bounded(maxQueue, st.queue) ==>
              var r := Offer(policy, maxQueue, st, e);
              r.queue == st.queue[1..] + [e] && r.dropped == st.dropped + 1 && r.enq == st.enq + 1
    // any other policy on a full queue: the entry is dropped
    ensures policy != DropOldest && Full(maxQueue, st.queue) ==>
              var r := Offer(policy, maxQueue, st, e);
              r.queue == st.queue && r.dropped == st.dropped + 1 && r.enq == st.enq
    // room in the queue: the entry is appended at the tail
    ensures !Full(maxQueue, st.queue) ==>
              var r := Offer(policy, maxQueue, st, e);
              r.queue == st.queue + [e] && r.enq == st.enq + 1 && r.dropped == st.dropped
    // nothing but the queue, `enq` and `dropped` changes, and the bound holds
    ensures var r := Offer(policy, maxQueue, st, e);
            r == st.(queue := r.queue, enq := r.enq, dropped := r.dropped)
    ensures Bounded(maxQueue, st.queue) ==> Bounded(maxQueue, Offer(policy, maxQueue, st, e).queue)
  {
  }

  /** Offering a run of entries to one sink, one `publish` call each. */
  function OfferAll(policy: Policy, maxQueue: int, st: SinkState, es: seq<Entry>): SinkState
  {
    if es == [] then st else Offer(policy, maxQueue, OfferAll(policy, maxQueue, st, es[..|es| - 1]), es[|es| - 1])
  }

  /** Which entries a bounded queue keeps out of everything offered to it:
      the newest `maxQueue` under drop_oldest, the oldest `maxQueue` otherwise. */
  function Window(policy: Policy, maxQueue: int, s: seq<Entry>): (w: seq<Entry>)
  {
    if maxQueue <= 0 || |s| <= maxQueue then s
    else if policy == DropOldest then s[|s| - maxQueue..]
    else s[..maxQueue]
  }

  /** After any run of `publish` calls on a bounded queue, the queue holds the
      window of old contents plus new entries; every entry that is not in it
      was counted as dropped; `enq` counts every entry under drop_oldest and
      only those kept otherwise. */
  lemma {:induction false} OfferAllWindow(policy: Policy, maxQueue: int, st: SinkState, es: seq<Entry>)
    requires Bounded(maxQueue, st.queue)
    ensures OfferAll(policy, maxQueue, st, es).queue == Window(policy, maxQueue, st.queue + es)
    ensures OfferAll(policy, maxQueue, st, es).dropped
            == st.dropped + |st.queue| + |es| - |Window(policy, maxQueue, st.queue + es)|
    ensures policy == DropOldest ==> OfferAll(policy, maxQueue, st, es).enq == st.enq + |es|
    ensures policy != DropOldest ==>
              OfferAll(policy, maxQueue, st, es).enq == st.enq + |Window(policy, maxQueue, st.queue + es)| - |st.queue|
  {
    if es == [] {
      assert st.queue + es == st.queue;
    } else {
      var init, e := es[..|es| - 1], es[|es| - 1];
      OfferAllWindow(policy, maxQueue, st, init);
      OfferAllBounded(policy, maxQueue, st, init);
      var s := st.queue + init;
      assert st.queue + es == s + [e];
      WindowSnoc(policy, maxQueue, s, e);
      OfferRule(policy, maxQueue, OfferAll(policy, maxQueue, st, init), e);
    }
  }

  lemma {:induction false} OfferAllBounded(policy: Policy, maxQueue: int, st: SinkState, es: seq<Entry>)
    requires Bounded(maxQueue, st.queue)
    ensures Bounded(maxQueue, OfferAll(policy, maxQueue, st, es).queue)
  {
    if es != [] {
      OfferAllBounded(policy, maxQueue, st, es[..|es| - 1]);
      OfferRule(policy, maxQueue, OfferAll(policy, maxQueue, st, es[..|es| - 1]), es[|es| - 1]);
    }
  }

  /** Offering one more entry to the window of `s` gives the window of `s + [e]`. */
  lemma WindowSnoc(policy: Policy, maxQueue: int, s: seq<Entry>, e: Entry)
    ensures var w := Window(policy, maxQueue, s);
            && (Full(maxQueue, w) && policy == DropOldest ==> w[1..] + [e] == Window(policy, maxQueue, s + [e]))
            && (Full(maxQueue, w) && policy != DropOldest ==> w == Window(policy, maxQueue, s + [e]))
            && (!Full(maxQueue, w) ==> w + [e] == Window(policy, maxQueue, s + [e]))
  {
    var w := Window(policy, maxQueue, s);
    if Full(maxQueue, w) && policy == DropOldest {
      assert w[1..] + [e] == (s + [e])[|s| + 1 - maxQueue..];
    } else if Full(maxQueue, w) {
      assert w == (s + [e])[..maxQueue];
    }
  }

  // ---------- reconnect ----------

  /** The outcome of one `is_ready_fn()` call. */
  datatype Probe = Ready | NotReady | ProbeRaises

  /** The outcome of one `publish_fn(table, data)` call: success, an
      exception in `cfg.recoverable`, or any other exception. */
  datatype Outcome = Success | Recoverable | Fatal

  /** The outcomes the sink's callbacks give, call by call. */
  datatype Script = Script(connects: seq<bool>, probes: seq<Probe>, publishes: seq<Outcome>)

  /** `_safe_is_ready`: an exception from the probe reads as "not ready" and
      is recorded in `last_err`. */
  function SafeIsReady(st: SinkState, p: Probe): (r: (bool, SinkState))
    ensures r.0 <==> p == Ready
    ensures r.1 == st.(lastErr := r.1.lastErr)
    ensures p == ProbeRaises ==> r.1.lastErr == Some(ReadyFailed)
    ensures p != ProbeRaises ==> r.1 == st
  {
    match p
    case Ready => (true, st)
    case NotReady => (false, st)
    case ProbeRaises => (false, st.(lastErr := Some(ReadyFailed)))
  }

  /** The backoff after a failed round: doubled, clamped to [initial, max]. */
  function NextBackoff(cfg: SinkConfig, b: int): (n: int)
    ensures n <= cfg.reconnectMaxMs
    ensures cfg.reconnectInitialMs <= cfg.reconnectMaxMs ==> cfg.reconnectInitialMs <= n
    ensures cfg.reconnectInitialMs <= 2 * b <= cfg.reconnectMaxMs ==> n == 2 * b
  {
    Min(cfg.reconnectMaxMs, Max(cfg.reconnectInitialMs, b * 2))
  }

  /** The backoff lies in [initial, max]. */
  predicate InRange(cfg: SinkConfig, b: int)
  {
    cfg.reconnectInitialMs <= b <= cfg.reconnectMaxMs
  }

  lemma MulAtLeast(i: nat, p: nat)
    requires p >= 1
    ensures i * p >= i
  {
    assert i * p == i * (p - 1) + i;
  }

  /** The result of trying to connect: whether it succeeded, the new state,
      and what is left of the script. */
  datatype Connection = Connection(ok: bool, st: SinkState, rest: Script)

  function Pow2(k: nat): (p: nat)
    ensures p >= 1
  {
    if k == 0 then 1 else 2 * Pow2(k - 1)
  }

  /** The backoff after `k` failed rounds. */
  function Backoffs(cfg: SinkConfig, b: int, k: nat): int
  {
    if k == 0 then b else NextBackoff(cfg, Backoffs(cfg, b, k - 1))
  }

  /** Starting from the initial backoff, `k` failed rounds leave it at
      `min(max, initial * 2^k)`: exponential growth up to the cap. (With
      initial > max the backoff starts above the cap and drops to it after
      the first failure.) */
  lemma {:induction false} BackoffSchedule(cfg: SinkConfig, k: nat)
    requires k > 0 || cfg.reconnectInitialMs <= cfg.reconnectMaxMs
    ensures Backoffs(cfg, cfg.reconnectInitialMs, k) == Min(cfg.reconnectMaxMs, cfg.reconnectInitialMs * Pow2(k))
  {
    var i := cfg.reconnectInitialMs;
    if k == 1 {
      assert Backoffs(cfg, i, 1) == NextBackoff(cfg, i);
    } else if k > 1 {
      BackoffSchedule(cfg, k - 1);
      var p := Pow2(k - 1);
      var x := i * p;
      assert i * Pow2(k) == 2 * x by { assert i * (2 * p) == 2 * (i * p); }
      assert x >= i by { MulAtLeast(i, p); }
      assert Backoffs(cfg, i, k) == NextBackoff(cfg, Min(cfg.reconnectMaxMs, x));
      DoubleCapped(cfg, x);
    }
  }

  /** Doubling a backoff already at or above the initial delay, then capping. */
  lemma DoubleCapped(cfg: SinkConfig, x: int)
    requires x >= cfg.reconnectInitialMs
    ensures NextBackoff(cfg, Min(cfg.reconnectMaxMs, x)) == Min(cfg.reconnectMaxMs, 2 * x)
  {
  }

  /** The `while not stop` loop of `_ensure_connected`: call `connect_fn` (if
      set), then the probe (if set); on success mark connected and reset the
      backoff, otherwise double the backoff and go round again. The loop runs
      until it connects or the script runs out, which stands for the stop
      event being set while it sleeps. */
  function ReconnectLoop(cfg: SinkConfig, st: SinkState, sc: Script): (c: Connection)
    ensures c.ok ==> c.st.connected && c.st.backoffMs == cfg.reconnectInitialMs
    ensures c.st == st.(connected := c.st.connected, backoffMs := c.st.backoffMs, lastErr := c.st.lastErr)
    ensures InRange(cfg, st.backoffMs) ==> InRange(cfg, c.st.backoffMs)
    ensures c.rest.publishes == sc.publishes
    ensures |c.rest.connects| <= |sc.connects| && |c.rest.probes| <= |sc.probes|
    decreases |sc.connects| + |sc.probes|
  {
    if cfg.hasConnect && sc.connects == [] then Connection(false, st, sc)
    else if cfg.hasConnect && !sc.connects[0] then
      // connect_fn raised
      var st1 := st.(connected := false, lastErr := Some(ConnectFailed));
      ReconnectLoop(cfg, st1.(backoffMs := NextBackoff(cfg, st1.backoffMs)), sc.(connects := sc.connects[1..]))
    else
      var sc1 := if cfg.hasConnect then sc.(connects := sc.connects[1..]) else sc;
      if !cfg.hasReady then
        Connection(true, st.(connected := true, backoffMs := cfg.reconnectInitialMs), sc1)
      else if sc1.probes == [] then Connection(false, st, sc1)
      else
        var probed := SafeIsReady(st, sc1.probes[0]);
        var sc2 := sc1.(probes := sc1.probes[1..]);
        if probed.0 then Connection(true, probed.1.(connected := true, backoffMs := cfg.reconnectInitialMs), sc2)
        else ReconnectLoop(cfg, probed.1.(backoffMs := NextBackoff(cfg, probed.1.backoffMs)), sc2)
  }

  /** `_ensure_connected`. */
  function ConnectOutcome(cfg: SinkConfig, stopping: bool, st: SinkState, sc: Script): (c: Connection)
    // only `connected`, the backoff and `last_err` change, and no publish outcome is taken
    ensures c.st == st.(connected := c.st.connected, backoffMs := c.st.backoffMs, lastErr := c.st.lastErr)
    ensures InRange(cfg, st.backoffMs) ==> InRange(cfg, c.st.backoffMs)
    ensures c.rest.publishes == sc.publishes
  {
    if stopping then Connection(false, st, sc)
    else if !cfg.hasConnect && !cfg.hasReady then Connection(true, st.(connected := true), sc)
    else if st.connected && !cfg.hasReady then Connection(true, st, sc)
    else if st.connected && sc.probes == [] then Connection(false, st, sc)
    else if st.connected then
      var probed := SafeIsReady(st, sc.probes[0]);
      var sc1 := sc.(probes := sc.probes[1..]);
      if probed.0 then Connection(true, st, sc1) else ReconnectLoop(cfg, probed.1, sc1)
    else ReconnectLoop(cfg, st, sc)
  }

  /** The cases of `_ensure_connected` before its loop. */
  lemma ConnectRule(cfg: SinkConfig, stopping: bool, st: SinkState, sc: Script)
    ensures var c := ConnectOutcome(cfg, stopping, st, sc);
            // once stop is set: false, nothing touched
            && (stopping ==> c == Connection(false, st, sc))
            // no connect_fn and no is_ready_fn: always connected
            && (!stopping && !cfg.hasConnect && !cfg.hasReady ==> c == Connection(true, st.(connected := true), sc))
            // already connected and ready: true, connect_fn not called
            && (!stopping && st.connected && !cfg.hasReady ==> c == Connection(true, st, sc))
            && (!stopping && st.connected && cfg.hasReady && sc.probes != [] && sc.probes[0] == Ready ==>
                  c == Connection(true, st, sc.(probes := sc.probes[1..])))
            && (c.ok ==> c.st.connected)
  {
  }

  function Repeat<T>(x: T, k: nat): (s: seq<T>)
    ensures |s| == k && forall j :: 0 <= j < k ==> s[j] == x
  {
    if k == 0 then [] else [x] + Repeat(x, k - 1)
  }

  /** `k` failing connects in a row, and no more script: each one records
      the failure and grows the backoff on the exponential schedule. */
  lemma {:induction false} FailingConnects(cfg: SinkConfig, st: SinkState, sc: Script, k: nat)
    requires cfg.hasConnect && sc.connects == Repeat(false, k)
    ensures var c := ReconnectLoop(cfg, st, sc);
            && !c.ok && c.rest.connects == []
            && c.st.backoffMs == Backoffs(cfg, st.backoffMs, k)
            && (k > 0 ==> !c.st.connected && c.st.lastErr == Some(ConnectFailed))
    decreases k
  {
    if k > 0 {
      var st1 := st.(connected := false, lastErr := Some(ConnectFailed));
      var st2 := st1.(backoffMs := NextBackoff(cfg, st1.backoffMs));
      var sc1 := sc.(connects := sc.connects[1..]);
      assert sc1.connects == Repeat(false, k - 1);
      FailingConnects(cfg, st2, sc1, k - 1);
      BackoffsShift(cfg, st.backoffMs, k);
    }
  }

  lemma {:induction false} BackoffsShift(cfg: SinkConfig, b: int, k: nat)
    requires k > 0
    ensures Backoffs(cfg, NextBackoff(cfg, b), k - 1) == Backoffs(cfg, b, k)
    decreases k
  {
    if k > 1 { BackoffsShift(cfg, b, k - 1); }
  }

  /** After failing connects, one that succeeds (with no probe) connects,
      resets the backoff to its initial value and leaves the rest of the script. */
  lemma {:induction false} ConnectAfterFailures(cfg: SinkConfig, st: SinkState, sc: Script, k: nat, more: seq<bool>)
    requires cfg.hasConnect && !cfg.hasReady
    requires sc.connects == Repeat(false, k) + [true] + more
    ensures var c := ReconnectLoop(cfg, st, sc);
            && c.ok && c.st.connected && c.st.backoffMs == cfg.reconnectInitialMs
            && c.rest == sc.(connects := more)
            && (k > 0 ==> c.st.lastErr == Some(ConnectFailed))
            && (k == 0 ==> c.st.lastErr == st.lastErr)
    decreases k
  {
    if k > 0 {
      var st1 := st.(connected := false, lastErr := Some(ConnectFailed));
      var st2 := st1.(backoffMs := NextBackoff(cfg, st1.backoffMs));
      var sc1 := sc.(connects := sc.connects[1..]);
      assert sc1.connects == Repeat(false, k - 1) + [true] + more;
      ConnectAfterFailures(cfg, st2, sc1, k - 1, more);
    } else {
      assert sc.connects[1..] == more;
    }
  }

  // ---------- worker ----------

  /** The `for i in range(attempts)` loop: what it leaves behind, and how
      many times it called `publish_fn`. */
  datatype Delivery = Delivery(published: bool, st: SinkState, rest: Script, calls: nat)

  /** The publish-and-retry loop with `left` attempts remaining. A recoverable
      failure marks the sink disconnected and reconnects before the next
      attempt (the publish goes ahead whatever the reconnect returned); any
      other failure stops. A script that runs out ends the loop. */
  function Attempts(cfg: SinkConfig, stopping: bool, st: SinkState, sc: Script, left: int): (d: Delivery)
    ensures d.calls <= Max(left, 0)
    decreases left
  {
    if left <= 0 || sc.publishes == [] then Delivery(false, st, sc, 0)
    else
      var rest := sc.(publishes := sc.publishes[1..]);
      match sc.publishes[0]
      case Success => Delivery(true, st.(sent := st.sent + 1, lastErr := None), rest, 1)
      case Fatal => Delivery(false, st.(errors := st.errors + 1, lastErr := Some(FatalFailure)), rest, 1)
      case Recoverable =>
        var st1 := st.(errors := st.errors + 1, lastErr := Some(RecoverableFailure), connected := false);
        var c := ConnectOutcome(cfg, stopping, st1, rest);
        var d := Attempts(cfg, stopping, c.st, c.rest, left - 1);
        Delivery(d.published, d.st, d.rest, d.calls + 1)
  }

  /** Which scripted outcomes the publish-and-retry loop consumed, run
      with `left` attempts on the outcomes `sc.publishes`. */
  ghost predicate CallsAccounted(sc: Script, left: int, d: Delivery)
  {
    Consumed(sc, left, d) && Stopped(sc, left, d)
  }

  /** At most `left` calls, each taking one scripted outcome, and every call
      but the last met a recoverable failure. */
  ghost predicate Consumed(sc: Script, left: int, d: Delivery)
  {
    && d.calls <= Max(left, 0) && d.calls <= |sc.publishes|
    && d.rest.publishes == sc.publishes[d.calls..]
    && (forall j :: 0 <= j < d.calls - 1 ==> sc.publishes[j] == Recoverable)
  }

  /** Why the loop stopped: published exactly when the last call succeeded,
      and a non-recoverable failure stops it before its attempts are used up. */
  ghost predicate Stopped(sc: Script, left: int, d: Delivery)
  {
    && d.calls <= |sc.publishes|
    && (d.published <==> d.calls > 0 && sc.publishes[d.calls - 1] == Success)
    && (!d.published && d.calls < Max(left, 0) && d.calls < |sc.publishes| ==>
          d.calls > 0 && sc.publishes[d.calls - 1] == Fatal)
  }

  /** How the publish-and-retry loop leaves the sink's counters, run from `st`. */
  ghost predicate CountersAccounted(cfg: SinkConfig, st: SinkState, d: Delivery)
  {
    // success is counted in `sent` and clears `last_err`
    && (d.published ==> d.st.sent == st.sent + 1 && d.st.lastErr == None)
    && (!d.published ==> d.st.sent == st.sent)
    // every failed call is counted in `errors`
    && d.st.errors == st.errors + d.calls - (if d.published then 1 else 0)
    // the queue and its counters are left alone
    && d.st.queue == st.queue && d.st.enq == st.enq && d.st.dropped == st.dropped
    && (InRange(cfg, st.backoffMs) ==> InRange(cfg, d.st.backoffMs))
  }

  /** One try that succeeds or meets a non-recoverable failure ends the loop. */
  lemma FinalStep(cfg: SinkConfig, stopping: bool, st: SinkState, sc: Script, left: int)
    requires left > 0 && sc.publishes != [] && sc.publishes[0] != Recoverable
    ensures var d := Attempts(cfg, stopping, st, sc, left);
            && d.calls == 1 && d.rest == sc.(publishes := sc.publishes[1..])
            && (d.published <==> sc.publishes[0] == Success)
            && d.st.connected == st.connected && d.st.backoffMs == st.backoffMs
  {
  }

  /** One try that meets a recoverable failure, then the rest of the loop. */
  lemma RecoverableStep(cfg: SinkConfig, stopping: bool, st: SinkState, sc: Script, left: int)
    requires left > 0 && sc.publishes != [] && sc.publishes[0] == Recoverable
    ensures var st1 := st.(errors := st.errors + 1, lastErr := Some(RecoverableFailure), connected := false);
            var c := ConnectOutcome(cfg, stopping, st1, sc.(publishes := sc.publishes[1..]));
            var d := Attempts(cfg, stopping, c.st, c.rest, left - 1);
            && c.rest.publishes == sc.publishes[1..]
            && Attempts(cfg, stopping, st, sc, left) == Delivery(d.published, d.st, d.rest, d.calls + 1)
  {
  }

  lemma {:induction false} AttemptsConsumed(cfg: SinkConfig, stopping: bool, st: SinkState, sc: Script, left: int)
    ensures Consumed(sc, left, Attempts(cfg, stopping, st, sc, left))
    decreases left
  {
    var D := Attempts(cfg, stopping, st, sc, left);
    if left > 0 && sc.publishes != [] && sc.publishes[0] == Recoverable {
      RecoverableStep(cfg, stopping, st, sc, left);
      var st1 := st.(errors := st.errors + 1, lastErr := Some(RecoverableFailure), connected := false);
      var c := ConnectOutcome(cfg, stopping, st1, sc.(publishes := sc.publishes[1..]));
      AttemptsConsumed(cfg, stopping, c.st, c.rest, left - 1);
      var d := Attempts(cfg, stopping, c.st, c.rest, left - 1);
      assert D.rest.publishes == sc.publishes[D.calls..] by {
        assert sc.publishes[d.calls + 1..] == c.rest.publishes[d.calls..];
      }
      forall j | 0 <= j < D.calls - 1 ensures sc.publishes[j] == Recoverable {
        if j > 0 { assert sc.publishes[j] == c.rest.publishes[j - 1]; }
      }
    } else if left > 0 && sc.publishes != [] {
      FinalStep(cfg, stopping, st, sc, left);
      assert D.calls == 1 && D.rest.publishes == sc.publishes[1..];
    } else {
      assert D == Delivery(false, st, sc, 0);
    }
  }

  lemma {:induction false} AttemptsStopped(cfg: SinkConfig, stopping: bool, st: SinkState, sc: Script, left: int)
    ensures Stopped(sc, left, Attempts(cfg, stopping, st, sc, left))
    decreases left
  {
    var D := Attempts(cfg, stopping, st, sc, left);
    if left > 0 && sc.publishes != [] && sc.publishes[0] == Recoverable {
      RecoverableStep(cfg, stopping, st, sc, left);
      var st1 := st.(errors := st.errors + 1, lastErr := Some(RecoverableFailure), connected := false);
      var c := ConnectOutcome(cfg, stopping, st1, sc.(publishes := sc.publishes[1..]));
      AttemptsStopped(cfg, stopping, c.st, c.rest, left - 1);
      var d := Attempts(cfg, stopping, c.st, c.rest, left - 1);
      if d.calls > 0 { assert sc.publishes[D.calls - 1] == c.rest.publishes[d.calls - 1]; }
    } else if left > 0 && sc.publishes != [] {
      FinalStep(cfg, stopping, st, sc, left);
      assert D.calls == 1;
      assert D.published <==> sc.publishes[0] == Success;
    } else {
      assert D == Delivery(false, st, sc, 0);
    }
  }

  lemma AttemptsCalls(cfg: SinkConfig, stopping: bool, st: SinkState, sc: Script, left: int)
    ensures CallsAccounted(sc, left, Attempts(cfg, stopping, st, sc, left))
  {
    AttemptsConsumed(cfg, stopping, st, sc, left);
    AttemptsStopped(cfg, stopping, st, sc, left);
  }

  lemma {:induction false} AttemptsCounters(cfg: SinkConfig, stopping: bool, st: SinkState, sc: Script, left: int)
    ensures CountersAccounted(cfg, st, Attempts(cfg, stopping, st, sc, left))
    decreases left
  {
    if left > 0 && sc.publishes != [] && sc.publishes[0] == Recoverable {
      var rest := sc.(publishes := sc.publishes[1..]);
      var st1 := st.(errors := st.errors + 1, lastErr := Some(RecoverableFailure), connected := false);
      var c := ConnectOutcome(cfg, stopping, st1, rest);
      AttemptsCounters(cfg, stopping, c.st, c.rest, left - 1);
    }
  }

  /** For one entry the worker makes at most `retry_times + 1` publish calls,
      stops at the first success or non-recoverable failure, and counts each
      call once in `sent` or `errors`. */
  lemma AttemptsAccounted(cfg: SinkConfig, stopping: bool, st: SinkState, sc: Script, left: int)
    ensures var d := Attempts(cfg, stopping, st, sc, left);
            CallsAccounted(sc, left, d) && CountersAccounted(cfg, st, d)
  {
    AttemptsCalls(cfg, stopping, st, sc, left);
    AttemptsCounters(cfg, stopping, st, sc, left);
  }

  /** One recoverable failure with a `connect_fn`, no probe and a connect
      that succeeds: the sink is reconnected, its backoff reset, and the
      retry loop goes on with the next outcome and the next connect. */
  lemma RecoverableReconnects(cfg: SinkConfig, st: SinkState, sc: Script, left: int)
    requires cfg.hasConnect && !cfg.hasReady
    requires left > 0 && sc.publishes != [] && sc.publishes[0] == Recoverable
    requires sc.connects != [] && sc.connects[0]
    ensures var st2 := st.(errors := st.errors + 1, lastErr := Some(RecoverableFailure),
                           connected := true, backoffMs := cfg.reconnectInitialMs);
            var d1 := Attempts(cfg, false, st2, Script(sc.connects[1..], sc.probes, sc.publishes[1..]), left - 1);
            Attempts(cfg, false, st, sc, left) == Delivery(d1.published, d1.st, d1.rest, d1.calls + 1)
  {
    var rest := sc.(publishes := sc.publishes[1..]);
    var st1 := st.(errors := st.errors + 1, lastErr := Some(RecoverableFailure), connected := false);
    assert ConnectOutcome(cfg, false, st1, rest) == ReconnectLoop(cfg, st1, rest);
  }

  /** Each recoverable failure among the calls made costs exactly one
      `connect_fn` call, when every connect succeeds. */
  lemma {:induction false} ReconnectsCounted(cfg: SinkConfig, st: SinkState, sc: Script, left: int)
    requires cfg.hasConnect && !cfg.hasReady
    requires forall i :: 0 <= i < |sc.connects| ==> sc.connects[i]
    requires |sc.connects| >= Max(left, 0)
    ensures var d := Attempts(cfg, false, st, sc, left);
            && d.calls <= |sc.publishes|
            && |sc.connects| - |d.rest.connects| == multiset(sc.publishes[..d.calls])[Recoverable]
    decreases left
  {
    var d := Attempts(cfg, false, st, sc, left);
    if left > 0 && sc.publishes != [] && sc.publishes[0] == Recoverable {
      RecoverableReconnects(cfg, st, sc, left);
      var st2 := st.(errors := st.errors + 1, lastErr := Some(RecoverableFailure),
                     connected := true, backoffMs := cfg.reconnectInitialMs);
      var sc2 := Script(sc.connects[1..], sc.probes, sc.publishes[1..]);
      ReconnectsCounted(cfg, st2, sc2, left - 1);
      var d1 := Attempts(cfg, false, st2, sc2, left - 1);
      assert d.calls == d1.calls + 1 && d.rest == d1.rest;
      assert sc.publishes[..d.calls] == [Recoverable] + sc2.publishes[..d1.calls];
      assert multiset(sc.publishes[..d.calls])[Recoverable] == multiset(sc2.publishes[..d1.calls])[Recoverable] + 1;
      assert |sc.connects| - |d.rest.connects| == 1 + (|sc2.connects| - |d1.rest.connects|);
    } else if left > 0 && sc.publishes != [] {
      FinalStep(cfg, false, st, sc, left);
      assert d.calls == 1 && d.rest.connects == sc.connects;
      assert sc.publishes[..d.calls] == [sc.publishes[0]];
      assert multiset(sc.publishes[..d.calls])[Recoverable] == 0;
    } else {
      assert d.calls == 0 && d.rest == sc;
      assert sc.publishes[..d.calls] == [];
    }
  }

  /** After a recoverable failure the sink is connected again with its
      backoff reset, when every connect succeeds; with none, the connection
      flag and the backoff are as they were. */
  lemma {:induction false} ReconnectsRestore(cfg: SinkConfig, st: SinkState, sc: Script, left: int)
    requires cfg.hasConnect && !cfg.hasReady
    requires forall i :: 0 <= i < |sc.connects| ==> sc.connects[i]
    requires |sc.connects| >= Max(left, 0)
    ensures var d := Attempts(cfg, false, st, sc, left);
            && d.calls <= |sc.publishes|
            && (Recoverable in sc.publishes[..d.calls] ==> d.st.connected && d.st.backoffMs == cfg.reconnectInitialMs)
            && (Recoverable !in sc.publishes[..d.calls] ==> d.st.connected == st.connected && d.st.backoffMs == st.backoffMs)
    decreases left
  {
    var d := Attempts(cfg, false, st, sc, left);
    if left > 0 && sc.publishes != [] && sc.publishes[0] == Recoverable {
      RecoverableReconnects(cfg, st, sc, left);
      var st2 := st.(errors := st.errors + 1, lastErr := Some(RecoverableFailure),
                     connected := true, backoffMs := cfg.reconnectInitialMs);
      var sc2 := Script(sc.connects[1..], sc.probes, sc.publishes[1..]);
      ReconnectsRestore(cfg, st2, sc2, left - 1);
      assert Recoverable in sc.publishes[..d.calls] by { assert sc.publishes[..d.calls][0] == Recoverable; }
    } else if left > 0 && sc.publishes != [] {
      FinalStep(cfg, false, st, sc, left);
      assert sc.publishes[..d.calls] == [sc.publishes[0]];
    } else {
      assert sc.publishes[..d.calls] == [];
    }
  }

  /** The forced reconnect after a recoverable failure (both of the above). */
  lemma AttemptsReconnect(cfg: SinkConfig, st: SinkState, sc: Script, left: int)
    requires cfg.hasConnect && !cfg.hasReady
    requires forall i :: 0 <= i < |sc.connects| ==> sc.connects[i]
    requires |sc.connects| >= Max(left, 0)
    ensures var d := Attempts(cfg, false, st, sc, left);
            && d.calls <= |sc.publishes|
            && |sc.connects| - |d.rest.connects| == multiset(sc.publishes[..d.calls])[Recoverable]
            && (Recoverable in sc.publishes[..d.calls] ==> d.st.connected && d.st.backoffMs == cfg.reconnectInitialMs)
            && (Recoverable !in sc.publishes[..d.calls] ==> d.st.connected == st.connected && d.st.backoffMs == st.backoffMs)
  {
    ReconnectsCounted(cfg, st, sc, left);
    ReconnectsRestore(cfg, st, sc, left);
  }

  /** With an outcome scripted for every try, a delivery that fails has used
      all `left` tries or ended on a non-recoverable failure. */
  lemma AttemptsExhaustOrFatal(cfg: SinkConfig, stopping: bool, st: SinkState, sc: Script, left: int)
    requires |sc.publishes| >= Max(left, 0)
    ensures var d := Attempts(cfg, stopping, st, sc, left);
            !d.published ==> d.calls == Max(left, 0) || (d.calls > 0 && sc.publishes[d.calls - 1] == Fatal)
  {
    AttemptsCalls(cfg, stopping, st, sc, left);
  }

  /** How one iteration of the worker's loop ended. */
  datatype Status =
    | Exited    // stop was set, or the sentinel was dequeued
    | Idle      // nothing to dequeue
    | Skipped   // could not connect: the entry is dropped
    | Delivered // published
    | Failed    // every attempt failed: requeued, dropped, or discarded

  datatype WorkerResult = WorkerResult(status: Status, st: SinkState, rest: Script)

  /** The requeue after a failed delivery: `put_nowait` of the entry at the
      tail, or a drop counted when the queue is full. */
  function Requeue(maxQueue: int, st: SinkState, e: Entry): (r: SinkState)
    ensures Full(maxQueue, st.queue) ==> r == st.(dropped := st.dropped + 1)
    ensures !Full(maxQueue, st.queue) ==> r == st.(queue := st.queue + [e])
  {
    if Full(maxQueue, st.queue) then st.(dropped := st.dropped + 1) else st.(queue := st.queue + [e])
  }

  /** One iteration of `_worker`'s loop for a sink. */
  function WorkerOutcome(cfg: SinkConfig, stopping: bool, st: SinkState, sc: Script): (w: WorkerResult)
    ensures stopping ==> w == WorkerResult(Exited, st, sc)
    ensures !stopping && st.queue == [] ==> w == WorkerResult(Idle, st, sc)
    ensures !stopping && st.queue != [] && IsSentinel(st.queue[0]) ==>
              w == WorkerResult(Exited, st.(queue := st.queue[1..]), sc)
  {
    if stopping then WorkerResult(Exited, st, sc)
    else if st.queue == [] then WorkerResult(Idle, st, sc)
    else
      var e := st.queue[0];
      var st1 := st.(queue := st.queue[1..]);
      if IsSentinel(e) then WorkerResult(Exited, st1, sc)
      else
        var c := ConnectOutcome(cfg, stopping, st1, sc);
        if !c.ok then WorkerResult(Skipped, c.st, c.rest)
        else
          var d := Attempts(cfg, stopping, c.st, c.rest, cfg.retryTimes + 1);
          if d.published then WorkerResult(Delivered, d.st, d.rest)
          else if cfg.requeueOnFailure then WorkerResult(Failed, Requeue(cfg.maxQueue, d.st, e), d.rest)
          else WorkerResult(Failed, d.st, d.rest)
  }

  /** What one worker iteration promises about its result `w`. */
  ghost predicate WorkerKeeps(cfg: SinkConfig, st: SinkState, w: WorkerResult)
  {
    && (w.status == Delivered ==> w.st.sent == st.sent + 1)
    && (w.status != Delivered ==> w.st.sent == st.sent)
    // `enq` counts `publish` only
    && w.st.enq == st.enq
    // an exiting or idle worker drops nothing
    && (w.status in {Exited, Idle} ==> w.st.dropped == st.dropped)
    // a delivered or skipped entry, or a failed one without requeue_on_failure, is consumed
    && ((w.status in {Delivered, Skipped} || (w.status == Failed && !cfg.requeueOnFailure)) ==>
          st.queue != [] && w.st.queue == st.queue[1..] && w.st.dropped == st.dropped)
    // a failed entry with requeue_on_failure goes back at the tail, or is a drop when the rest is full
    && (w.status == Failed && cfg.requeueOnFailure ==>
          && st.queue != []
          && (Full(cfg.maxQueue, st.queue[1..]) ==> w.st.queue == st.queue[1..] && w.st.dropped == st.dropped + 1)
          && (!Full(cfg.maxQueue, st.queue[1..]) ==>
                w.st.queue == st.queue[1..] + [st.queue[0]] && w.st.dropped == st.dropped))
    && w.st.errors >= st.errors
    && (Bounded(cfg.maxQueue, st.queue) ==> Bounded(cfg.maxQueue, w.st.queue))
    && (InRange(cfg, st.backoffMs) ==> InRange(cfg, w.st.backoffMs))
  }

  /** When a non-sentinel entry is dequeued, what decides the status `w`:
      the entry is skipped exactly when `_ensure_connected` fails, and then no
      publish call is made; otherwise the worker makes k calls, at most
      `retry_times + 1`, and the entry is delivered exactly when the last of
      them succeeded and failed otherwise. */
  ghost predicate StatusRule(cfg: SinkConfig, st: SinkState, sc: Script, w: WorkerResult)
    requires st.queue != []
  {
    && (w.status == Skipped <==> !ConnectOutcome(cfg, false, st.(queue := st.queue[1..]), sc).ok)
    && (w.status == Skipped ==> w.rest.publishes == sc.publishes)
    && (w.status != Skipped ==>
          var k := |sc.publishes| - |w.rest.publishes|;
          && 0 <= k <= Max(cfg.retryTimes + 1, 0)
          && w.rest.publishes == sc.publishes[k..]
          && (w.status == Delivered <==> k > 0 && sc.publishes[k - 1] == Success)
          && (w.status == Failed <==> !(k > 0 && sc.publishes[k - 1] == Success)))
  }

  lemma WorkerOutcomeStatus(cfg: SinkConfig, st: SinkState, sc: Script)
    requires st.queue != [] && !IsSentinel(st.queue[0])
    ensures StatusRule(cfg, st, sc, WorkerOutcome(cfg, false, st, sc))
  {
    var c := ConnectOutcome(cfg, false, st.(queue := st.queue[1..]), sc);
    var w := WorkerOutcome(cfg, false, st, sc);
    if !c.ok {
      assert w == WorkerResult(Skipped, c.st, c.rest);
    } else {
      var d := Attempts(cfg, false, c.st, c.rest, cfg.retryTimes + 1);
      assert w.status == (if d.published then Delivered else Failed) && w.rest == d.rest;
      AttemptsCalls(cfg, false, c.st, c.rest, cfg.retryTimes + 1);
      assert |sc.publishes| - |w.rest.publishes| == d.calls;
    }
  }

  /** A worker iteration never loses count: `enq` is untouched, the other
      counters only grow, and a requeue keeps the queue within its bound. */
  lemma WorkerOutcomeCounts(cfg: SinkConfig, stopping: bool, st: SinkState, sc: Script)
    ensures WorkerKeeps(cfg, st, WorkerOutcome(cfg, stopping, st, sc))
  {
    if !stopping && st.queue != [] && !IsSentinel(st.queue[0]) {
      var c := ConnectOutcome(cfg, stopping, st.(queue := st.queue[1..]), sc);
      if c.ok {
        AttemptsCounters(cfg, stopping, c.st, c.rest, cfg.retryTimes + 1);
      }
    }
  }

  /** One worker iteration: what it does to the queue and the counters
      (`WorkerKeeps`), and which status a dequeued entry gets (`StatusRule`). */
  lemma WorkerOutcomeKeeps(cfg: SinkConfig, stopping: bool, st: SinkState, sc: Script)
    ensures WorkerKeeps(cfg, st, WorkerOutcome(cfg, stopping, st, sc))
    ensures !stopping && st.queue != [] && !IsSentinel(st.queue[0]) ==>
              StatusRule(cfg, st, sc, WorkerOutcome(cfg, stopping, st, sc))
  {
    WorkerOutcomeCounts(cfg, stopping, st, sc);
    if !stopping && st.queue != [] && !IsSentinel(st.queue[0]) {
      WorkerOutcomeStatus(cfg, st, sc);
    }
  }
}
