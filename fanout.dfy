/** `FanoutPublisher` (feedhandler/src/publishers/fanout_publisher.py): one
    bounded queue per sink, every published pair copied into each of them,
    and a worker per sink that drains its queue into the sink. The worker
    threads are not modelled; one iteration of a worker's loop is the method
    `WorkerStep`, which the caller may interleave with `Publish` at will. */
module Fanout {
  import opened Values
  import opened Sinks

  /** The names the sinks are configured under. */
  function SinkNames(sinks: seq<SinkConfig>): set<string>
  {
    set s | s in sinks :: s.name
  }

  lemma SinkNamesSnoc(sinks: seq<SinkConfig>)
    requires sinks != []
    ensures SinkNames(sinks) == SinkNames(sinks[..|sinks| - 1]) + {sinks[|sinks| - 1].name}
  {
    var init := sinks[..|sinks| - 1];
    assert sinks == init + [sinks[|sinks| - 1]];
  }

  /** `{ s.name: s for s in sinks }`: one config per name. */
  function Configs(sinks: seq<SinkConfig>): (cfgs: map<string, SinkConfig>)
    ensures cfgs.Keys == SinkNames(sinks)
  {
    if sinks == [] then map[]
    else
      SinkNamesSnoc(sinks);
      Configs(sinks[..|sinks| - 1])[sinks[|sinks| - 1].name := sinks[|sinks| - 1]]
  }

  /** `sinks[j]` is the last config given under its name. */
  predicate LastOfName(sinks: seq<SinkConfig>, j: int)
  {
    0 <= j < |sinks| && forall j' :: j < j' < |sinks| ==> sinks[j'].name != sinks[j].name
  }

  /** A name given twice keeps the config given last. */
  lemma {:induction false} ConfigsLastWins(sinks: seq<SinkConfig>, j: int)
    requires LastOfName(sinks, j)
    ensures sinks[j].name in Configs(sinks) && Configs(sinks)[sinks[j].name] == sinks[j]
  {
    var init := sinks[..|sinks| - 1];
    if j < |sinks| - 1 {
      assert sinks[|sinks| - 1].name != sinks[j].name;
      assert LastOfName(init, j) by {
        forall j' | j < j' < |init| ensures init[j'].name != init[j].name {
          assert init[j'] == sinks[j'] && init[j] == sinks[j];
        }
      }
      ConfigsLastWins(init, j);
      assert init[j] == sinks[j];
    }
  }

  /** The dict's key order: each name where it first occurs. */
  function Names(sinks: seq<SinkConfig>): (names: seq<string>)
    ensures forall n :: n in names <==> n in SinkNames(sinks)
    ensures forall i, j :: 0 <= i < j < |names| ==> names[i] != names[j]
  {
    if sinks == [] then []
    else
      var init, last := sinks[..|sinks| - 1], sinks[|sinks| - 1];
      SinkNamesSnoc(sinks);
      var ns := Names(init);
      if last.name in ns then ns else ns + [last.name]
  }

  /** Every sink's queue after `publish(table, data)`. */
  function PublishAll(policy: Policy, cfgs: map<string, SinkConfig>, states: map<string, SinkState>, e: Entry): (r: map<string, SinkState>)
    requires states.Keys <= cfgs.Keys
    ensures r.Keys == states.Keys
  {
    map n | n in states :: Offer(policy, cfgs[n].maxQueue, states[n], e)
  }

  /** A sink's state after `close` tried to enqueue the sentinel. */
  function WithSentinel(maxQueue: int, st: SinkState): (r: SinkState)
    ensures Full(maxQueue, st.queue) ==> r == st
    ensures !Full(maxQueue, st.queue) ==> r == st.(queue := st.queue + [Entry(Null, Null)])
  {
    if Full(maxQueue, st.queue) then st else st.(queue := st.queue + [Entry(Null, Null)])
  }

  /** The `close_fn` calls `close` makes, in the dict's order. */
  function CloseCalls(names: seq<string>, cfgs: map<string, SinkConfig>): seq<string>
  {
    if names == [] then []
    else
      var rest := CloseCalls(names[1..], cfgs);
      if names[0] in cfgs && cfgs[names[0]].hasClose then [names[0]] + rest else rest
  }

  function Count(s: seq<string>, x: string): nat
  {
    if s == [] then 0 else (if s[0] == x then 1 else 0) + Count(s[1..], x)
  }

  /** `close` calls the `close_fn` of every configured sink that has one
      exactly once, and of no other name. */
  lemma {:induction false} CloseCallsOnce(names: seq<string>, cfgs: map<string, SinkConfig>, n: string)
    requires forall i, j :: 0 <= i < j < |names| ==> names[i] != names[j]
    ensures Count(CloseCalls(names, cfgs), n) == (if n in names && n in cfgs && cfgs[n].hasClose then 1 else 0)
  {
    if names != [] {
      CloseCallsOnce(names[1..], cfgs, n);
      var rest := CloseCalls(names[1..], cfgs);
      if names[0] in cfgs && cfgs[names[0]].hasClose {
        assert ([names[0]] + rest)[1..] == rest;
      }
      assert n in names <==> n == names[0] || n in names[1..];
      if n == names[0] {
        assert n !in names[1..] by {
          forall k | 0 <= k < |names[1..]| ensures names[1..][k] != n { assert names[1..][k] == names[k + 1]; }
        }
      }
    }
  }

  /** A sink's queue within its bound, and its backoff within
      [initial, max] whenever the config allows that range. */
  predicate SinkOk(cfg: SinkConfig, st: SinkState)
  {
    && Bounded(cfg.maxQueue, st.queue)
    && (cfg.reconnectInitialMs <= cfg.reconnectMaxMs ==> InRange(cfg, st.backoffMs))
  }

  /** The publisher's tables agree: distinct names in dict order, one config
      and one state per name, every sink in shape. */
  ghost predicate Wf(names: seq<string>, cfgs: map<string, SinkConfig>, states: map<string, SinkState>)
  {
    && (forall i, j :: 0 <= i < j < |names| ==> names[i] != names[j])
    && (forall n :: n in cfgs <==> n in names)
    && states.Keys == cfgs.Keys
    && (forall n :: n in states ==> SinkOk(cfgs[n], states[n]))
  }

  lemma WfUpdate(names: seq<string>, cfgs: map<string, SinkConfig>, states: map<string, SinkState>, name: string, st: SinkState)
    requires Wf(names, cfgs, states) && name in states && SinkOk(cfgs[name], st)
    ensures Wf(names, cfgs, states[name := st])
  {
  }

  /** The states once the sinks in `done` have been offered `e`. */
  ghost function PublishedTo(policy: Policy, cfgs: map<string, SinkConfig>, states: map<string, SinkState>, e: Entry, done: set<string>): map<string, SinkState>
    requires states.Keys <= cfgs.Keys
  {
    map n | n in states :: if n in done then Offer(policy, cfgs[n].maxQueue, states[n], e) else states[n]
  }

  lemma PublishedToStep(policy: Policy, cfgs: map<string, SinkConfig>, states: map<string, SinkState>, e: Entry, done: set<string>, name: string)
    requires states.Keys <= cfgs.Keys && name in states && name !in done
    ensures PublishedTo(policy, cfgs, states, e, done)[name := Offer(policy, cfgs[name].maxQueue, states[name], e)]
            == PublishedTo(policy, cfgs, states, e, done + {name})
  {
  }

  lemma PublishAllWf(names: seq<string>, policy: Policy, cfgs: map<string, SinkConfig>, states: map<string, SinkState>, e: Entry)
    requires Wf(names, cfgs, states)
    ensures Wf(names, cfgs, PublishAll(policy, cfgs, states, e))
  {
    var r := PublishAll(policy, cfgs, states, e);
    forall n | n in r ensures SinkOk(cfgs[n], r[n]) {
      assert SinkOk(cfgs[n], states[n]);
      OfferRule(policy, cfgs[n].maxQueue, states[n], e);
    }
  }

  /** The states once the sinks in `done` have had the sentinel offered. */
  ghost function SentinelTo(cfgs: map<string, SinkConfig>, states: map<string, SinkState>, done: set<string>): map<string, SinkState>
    requires states.Keys <= cfgs.Keys
  {
    map n | n in states :: if n in done then WithSentinel(cfgs[n].maxQueue, states[n]) else states[n]
  }

  lemma SentinelToStep(cfgs: map<string, SinkConfig>, states: map<string, SinkState>, done: set<string>, name: string)
    requires states.Keys <= cfgs.Keys && name in states && name !in done
    ensures SentinelTo(cfgs, states, done)[name := WithSentinel(cfgs[name].maxQueue, states[name])]
            == SentinelTo(cfgs, states, done + {name})
  {
  }

  lemma SentinelWf(names: seq<string>, cfgs: map<string, SinkConfig>, states: map<string, SinkState>)
    requires Wf(names, cfgs, states)
    ensures Wf(names, cfgs, SentinelTo(cfgs, states, states.Keys))
  {
    var r := SentinelTo(cfgs, states, states.Keys);
    forall n | n in r ensures SinkOk(cfgs[n], r[n]) {
      assert SinkOk(cfgs[n], states[n]);
    }
  }

  /** What `counters()` reports for one sink. */
  datatype Counter = Counter(
    queued: nat, enq: nat, sent: nat, dropped: nat, errors: nat,
    connected: bool, lastErr: Option<ErrorKind>, backoffMs: int)

  class FanoutPublisher {
    const names: seq<string>
    const cfgs: map<string, SinkConfig>
    const policy: Policy
    var states: map<string, SinkState>
    var stopping: bool
    /** The `close_fn` calls made so far, in order. */
    var closed: seq<string>

    ghost predicate Valid()
      reads this
    {
      Wf(names, cfgs, states)
    }

    constructor(sinks: seq<SinkConfig>, policy: Policy)
      ensures Valid()
      ensures names == Names(sinks) && cfgs == Configs(sinks) && this.policy == policy
      ensures states == map n | n in cfgs :: Initial(cfgs[n])
      ensures !stopping && closed == []
    {
      names := Names(sinks);
      cfgs := Configs(sinks);
      this.policy := policy;
      states := map[];
      stopping := false;
      closed := [];
      new;
      StartWorkers();
    }

    /** `_start_workers`: a fresh state per configured sink, its backoff at
        the initial value. */
    method StartWorkers()
      requires states == map[]
      requires forall i, j :: 0 <= i < j < |names| ==> names[i] != names[j]
      requires forall n :: n in cfgs <==> n in names
      modifies this
      ensures states == map n | n in cfgs :: Initial(cfgs[n])
      ensures stopping == old(stopping) && closed == old(closed)
      ensures Valid()
    {
      var i := 0;
      while i < |names|
        invariant 0 <= i <= |names|
        invariant states.Keys == set k | 0 <= k < i :: names[k]
        invariant forall n :: n in states ==> n in cfgs && states[n] == Initial(cfgs[n])
        invariant stopping == old(stopping) && closed == old(closed)
      {
        states := states[names[i] := Initial(cfgs[names[i]])];
        i := i + 1;
      }
      assert states.Keys == cfgs.Keys by {
        forall n | n in cfgs ensures n in states {
          var k :| 0 <= k < |names| && names[k] == n;
        }
      }
    }

    /** `publish`: offers `(table, data)` to every sink in turn; each sink
        applies the overload rule on its own queue, so a full sink never
        keeps the entry from the others. */
    method Publish(table: Value, data: Value)
      requires Valid()
      modifies this
      ensures Valid()
      ensures states == PublishAll(policy, cfgs, old(states), Entry(table, data))
      ensures stopping == old(stopping) && closed == old(closed)
    {
      PublishAllWf(names, policy, cfgs, states, Entry(table, data));
      states := OfferEach(names, policy, cfgs, states, Entry(table, data));
    }

    /** `publish`'s loop over the sinks in dict order. */
    static method OfferEach(names: seq<string>, policy: Policy, cfgs: map<string, SinkConfig>, states: map<string, SinkState>, e: Entry)
      returns (queues: map<string, SinkState>)
      requires Wf(names, cfgs, states)
      ensures queues == PublishAll(policy, cfgs, states, e)
    {
      queues := states;
      ghost var done: set<string> := {};
      var i := 0;
      while i < |names|
        invariant 0 <= i <= |names|
        invariant forall k :: 0 <= k < |names| ==> (names[k] in done <==> k < i)
        invariant done <= states.Keys
        invariant queues == PublishedTo(policy, cfgs, states, e, done)
      {
        var name := names[i];
        var st := OfferTo(policy, cfgs[name].maxQueue, queues[name], e);
        PublishedToStep(policy, cfgs, states, e, done, name);
        queues := queues[name := st];
        done := done + {name};
        i := i + 1;
      }
      assert done == states.Keys;
    }

    /** The body of `publish`'s loop for one sink. */
    static method OfferTo(policy: Policy, maxQueue: int, st0: SinkState, e: Entry) returns (st: SinkState)
      ensures st == Offer(policy, maxQueue, st0, e)
    {
      st := st0;
      if policy == DropOldest && Full(maxQueue, st.queue) {
        st := st.(queue := st.queue[1..], dropped := st.dropped + 1);
      }
      if policy == DropNewest && Full(maxQueue, st.queue) {
        st := st.(dropped := st.dropped + 1);
      } else if Full(maxQueue, st.queue) {
        st := st.(dropped := st.dropped + 1);  // put_nowait raised queue.Full
      } else {
        st := st.(queue := st.queue + [e], enq := st.enq + 1);
      }
    }

    /** `_ensure_connected` for the sink `name`, its callbacks answering
        from `sc`. */
    method EnsureConnected(name: string, sc: Script) returns (ok: bool, rest: Script)
      requires Valid() && name in cfgs
      modifies this
      ensures Valid()
      ensures ok == ConnectOutcome(cfgs[name], stopping, old(states)[name], sc).ok
      ensures rest == ConnectOutcome(cfgs[name], stopping, old(states)[name], sc).rest
      ensures states == old(states)[name := ConnectOutcome(cfgs[name], stopping, old(states)[name], sc).st]
      ensures stopping == old(stopping) && closed == old(closed)
    {
      var st;
      ok, st, rest := Connect(cfgs[name], stopping, states[name], sc);
      assert SinkOk(cfgs[name], states[name]);
      WfUpdate(names, cfgs, states, name, st);
      states := states[name := st];
    }

    /** The body of `_ensure_connected`, on the sink's state. */
    static method Connect(cfg: SinkConfig, stopping: bool, st0: SinkState, sc: Script) returns (ok: bool, st: SinkState, rest: Script)
      ensures Connection(ok, st, rest) == ConnectOutcome(cfg, stopping, st0, sc)
    {
      st, rest := st0, sc;
      if stopping {
        return false, st, rest;
      }
      if !cfg.hasConnect && !cfg.hasReady {
        return true, st.(connected := true), rest;
      }
      if st.connected {
        if !cfg.hasReady {
          return true, st, rest;
        }
        if rest.probes == [] {
          return false, st, rest;  // the script has run out
        }
        var probed := SafeIsReady(st, rest.probes[0]);
        rest := rest.(probes := rest.probes[1..]);
        if probed.0 {
          return true, st, rest;
        }
        st := probed.1;
      }
      ok, st, rest := Reconnect(cfg, st, rest);
    }

    /** The `while not stop` retry loop of `_ensure_connected`. */
    static method Reconnect(cfg: SinkConfig, st0: SinkState, sc: Script) returns (ok: bool, st: SinkState, rest: Script)
      ensures Connection(ok, st, rest) == ReconnectLoop(cfg, st0, sc)
    {
      st, rest := st0, sc;
      while true
        invariant ReconnectLoop(cfg, st, rest) == ReconnectLoop(cfg, st0, sc)
        decreases |rest.connects| + |rest.probes|
      {
        if cfg.hasConnect {
          if rest.connects == [] {
            return false, st, rest;  // the script has run out
          }
          var connected := rest.connects[0];
          rest := rest.(connects := rest.connects[1..]);
          if !connected {
            st := st.(connected := false, lastErr := Some(ConnectFailed));
            st := st.(backoffMs := NextBackoff(cfg, st.backoffMs));
            continue;
          }
        }
        if !cfg.hasReady {
          return true, st.(connected := true, backoffMs := cfg.reconnectInitialMs), rest;
        }
        if rest.probes == [] {
          return false, st, rest;  // the script has run out
        }
        var probed := SafeIsReady(st, rest.probes[0]);
        rest := rest.(probes := rest.probes[1..]);
        st := probed.1;
        if probed.0 {
          return true, st.(connected := true, backoffMs := cfg.reconnectInitialMs), rest;
        }
        st := st.(backoffMs := NextBackoff(cfg, st.backoffMs));
      }
    }

    /** One iteration of `_worker`'s loop for the sink `name`. */
    method WorkerStep(name: string, sc: Script) returns (status: Status, rest: Script)
      requires Valid() && name in cfgs
      modifies this
      ensures Valid()
      ensures status == WorkerOutcome(cfgs[name], stopping, old(states)[name], sc).status
      ensures rest == WorkerOutcome(cfgs[name], stopping, old(states)[name], sc).rest
      ensures states == old(states)[name := WorkerOutcome(cfgs[name], stopping, old(states)[name], sc).st]
      ensures stopping == old(stopping) && closed == old(closed)
    {
      var st;
      status, st, rest := WorkerIteration(cfgs[name], stopping, states[name], sc);
      WorkerOutcomeKeeps(cfgs[name], stopping, states[name], sc);
      assert SinkOk(cfgs[name], states[name]);
      WfUpdate(names, cfgs, states, name, st);
      states := states[name := st];
    }

    /** The body of `_worker`'s loop on the sink's state: take the head of
        the queue, connect, publish with retries, requeue on failure. */
    static method WorkerIteration(cfg: SinkConfig, stopping: bool, st0: SinkState, sc: Script)
      returns (status: Status, st: SinkState, rest: Script)
      ensures WorkerResult(status, st, rest) == WorkerOutcome(cfg, stopping, st0, sc)
    {
      st, rest := st0, sc;
      if stopping {
        return Exited, st, rest;
      }
      if st.queue == [] {
        return Idle, st, rest;  // q.get timed out
      }
      var e := st.queue[0];
      st := st.(queue := st.queue[1..]);
      if IsSentinel(e) {
        return Exited, st, rest;
      }
      var ok;
      ok, st, rest := Connect(cfg, stopping, st, rest);
      if !ok {
        return Skipped, st, rest;
      }
      var published;
      published, st, rest := Deliver(cfg, stopping, st, rest);
      if !published && cfg.requeueOnFailure {
        st := Requeue(cfg.maxQueue, st, e);
      }
      status := if published then Delivered else Failed;
    }

    /** The `for i in range(attempts)` publish-and-retry loop of `_worker`. */
    static method Deliver(cfg: SinkConfig, stopping: bool, st0: SinkState, sc: Script)
      returns (published: bool, st: SinkState, rest: Script)
      ensures Delivery(published, st, rest, 0) == Attempts(cfg, stopping, st0, sc, cfg.retryTimes + 1).(calls := 0)
    {
      published, st, rest := false, st0, sc;
      var attempts := cfg.retryTimes + 1;
      ghost var target := Attempts(cfg, stopping, st0, sc, attempts).(calls := 0);
      var i := 0;
      while i < attempts
        invariant Attempts(cfg, stopping, st, rest, attempts - i).(calls := 0) == target
      {
        if rest.publishes == [] {
          return;  // the script has run out
        }
        var outcome := rest.publishes[0];
        rest := rest.(publishes := rest.publishes[1..]);
        if outcome == Success {
          return true, st.(sent := st.sent + 1, lastErr := None), rest;
        } else if outcome == Recoverable {
          st := st.(errors := st.errors + 1, lastErr := Some(RecoverableFailure), connected := false);
          var _, st1, rest1 := Connect(cfg, stopping, st, rest);
          st, rest := st1, rest1;
        } else {
          return false, st.(errors := st.errors + 1, lastErr := Some(FatalFailure)), rest;
        }
        i := i + 1;
      }
    }

    /** `close`: sets stop, enqueues the sentinel wherever there is room
        (no `enq` for it), then calls every configured `close_fn`. */
    method Close()
      requires Valid()
      modifies this
      ensures Valid()
      ensures stopping
      ensures states == SentinelTo(cfgs, old(states), old(states).Keys)
      ensures closed == old(closed) + CloseCalls(names, cfgs)
    {
      stopping := true;
      SentinelWf(names, cfgs, states);
      states := SentinelEach(names, cfgs, states);
      var calls := CloseEach(names, cfgs);
      closed := closed + calls;
    }

    /** `close`'s loop that offers the sentinel to each queue, ignoring a full one. */
    static method SentinelEach(names: seq<string>, cfgs: map<string, SinkConfig>, states: map<string, SinkState>)
      returns (queues: map<string, SinkState>)
      requires Wf(names, cfgs, states)
      ensures queues == SentinelTo(cfgs, states, states.Keys)
    {
      queues := states;
      ghost var done: set<string> := {};
      var i := 0;
      while i < |names|
        invariant 0 <= i <= |names|
        invariant forall k :: 0 <= k < |names| ==> (names[k] in done <==> k < i)
        invariant done <= states.Keys
        invariant queues == SentinelTo(cfgs, states, done)
      {
        var name := names[i];
        var st := queues[name];
        if !Full(cfgs[name].maxQueue, st.queue) {
          st := st.(queue := st.queue + [Entry(Null, Null)]);  // put_nowait of the sentinel
        }
        SentinelToStep(cfgs, states, done, name);
        queues := queues[name := st];
        done := done + {name};
        i := i + 1;
      }
      assert done == states.Keys;
    }

    /** `close`'s loop over the configs: the sinks whose `close_fn` it calls,
        in order (exceptions from `close_fn` are swallowed). */
    static method CloseEach(names: seq<string>, cfgs: map<string, SinkConfig>) returns (calls: seq<string>)
      requires forall n :: n in names ==> n in cfgs
      ensures calls == CloseCalls(names, cfgs)
    {
      calls := [];
      var i := 0;
      while i < |names|
        invariant 0 <= i <= |names|
        invariant calls + CloseCalls(names[i..], cfgs) == CloseCalls(names, cfgs)
      {
        if cfgs[names[i]].hasClose {
          calls := calls + [names[i]];
        }
        assert names[i..][1..] == names[i + 1..];
        i := i + 1;
      }
    }

    /** `counters()`: a snapshot of every sink's counters. */
    function Counters(): (c: map<string, Counter>)
      reads this
      requires Valid()
      ensures c.Keys == cfgs.Keys
      ensures forall n :: n in c ==>
                && c[n].queued == |states[n].queue| && c[n].enq == states[n].enq && c[n].sent == states[n].sent
                && c[n].dropped == states[n].dropped && c[n].errors == states[n].errors
                && c[n].connected == states[n].connected && c[n].lastErr == states[n].lastErr
                && c[n].backoffMs == states[n].backoffMs
      ensures forall n :: n in c && cfgs[n].maxQueue > 0 ==> c[n].queued <= cfgs[n].maxQueue
    {
      map n | n in states ::
        var st := states[n];
        Counter(|st.queue|, st.enq, st.sent, st.dropped, st.errors, st.connected, st.lastErr, st.backoffMs)
    }
  }
}
