/** The minute-bucket buffer of the real-time data handler
    (feedhandler/src/handlers/rt_data_handler.py): records are buffered while
    the wall-clock minute stays the same, and the whole batch is written to
    `<minute>.pkl` when the minute changes. The clock reading is a parameter
    and each pickle write is recorded as `(minute, batch)` in a log. */
module RtDataBuffer {

  /** The handler's state: the pending batch, the minute it belongs to
      (`""` before the first record) and the batches written so far. */
  datatype State<R> = State(buffer: seq<R>, currentMinute: string, flushed: seq<(string, seq<R>)>)

  function Init<R>(): State<R>
  {
    State([], "", [])
  }

  /** The log after `_flush_to_pickle`: one more batch, or none for an empty buffer. */
  function Flush<R>(st: State<R>): (log: seq<(string, seq<R>)>)
    ensures st.buffer == [] ==> log == st.flushed
    ensures st.buffer != [] ==> log == st.flushed + [(st.currentMinute, st.buffer)]
  {
    if st.buffer == [] then st.flushed else st.flushed + [(st.currentMinute, st.buffer)]
  }

  /** `_buffer_and_maybe_flush(rec)` at the minute `key`. */
  function Step<R>(st: State<R>, rec: R, key: string): (r: State<R>)
    ensures r.currentMinute == key
    ensures |r.buffer| > 0 && r.buffer[|r.buffer| - 1] == rec
    ensures st.currentMinute == "" || st.currentMinute == key ==>
              r.buffer == st.buffer + [rec] && r.flushed == st.flushed
    ensures st.currentMinute != "" && st.currentMinute != key ==>
              r.buffer == [rec] && r.flushed == Flush(st)
  {
    var cur := if st.currentMinute == "" then key else st.currentMinute;
    if key != cur then State([rec], key, Flush(State(st.buffer, cur, st.flushed)))
    else State(st.buffer + [rec], cur, st.flushed)
  }

  /** The state after a stream of `(record, minute)` arrivals. */
  function Run<R>(st: State<R>, events: seq<(R, string)>): State<R>
  {
    if events == [] then st
    else
      var last := events[|events| - 1];
      Step(Run(st, events[..|events| - 1]), last.0, last.1)
  }

  /** The arrivals cut into maximal runs of the same minute, each with its
      records in arrival order. */
  function Groups<R>(events: seq<(R, string)>): (g: seq<(string, seq<R>)>)
    ensures |events| > 0 <==> |g| > 0
    ensures |g| > 0 ==> g[|g| - 1].0 == events[|events| - 1].1
  {
    if events == [] then []
    else
      var g := Groups(events[..|events| - 1]);
      var last := events[|events| - 1];
      if g != [] && g[|g| - 1].0 == last.1 then g[..|g| - 1] + [(last.1, g[|g| - 1].1 + [last.0])]
      else g + [(last.1, [last.0])]
  }

  /** Minute keys rendered by `strftime("%Y%m%dT%H%M")` are never empty. */
  predicate Stamped<R>(events: seq<(R, string)>)
  {
    forall i :: 0 <= i < |events| ==> events[i].1 != ""
  }

  /** From a fresh handler, the batches written are exactly the completed
      runs of equal minutes, each labelled with its minute, and the buffer
      holds the run still in progress. */
  lemma {:induction false} RunGroups<R>(events: seq<(R, string)>)
    requires Stamped(events)
    ensures events == [] ==> Run(Init(), events) == Init()
    ensures events != [] ==>
              var g := Groups(events);
              && Run(Init(), events).flushed == g[..|g| - 1]
              && Run(Init(), events).buffer == g[|g| - 1].1
              && Run(Init(), events).currentMinute == g[|g| - 1].0
  {
    if |events| > 1 {
      var prev := events[..|events| - 1];
      assert Stamped(prev) by {
        forall i | 0 <= i < |prev| ensures prev[i].1 != "" { assert prev[i] == events[i]; }
      }
      RunGroups(prev);
      var g := Groups(prev);
      var last := events[|events| - 1];
      assert last.1 != "";
      if g[|g| - 1].0 == last.1 {
        assert Groups(events) == g[..|g| - 1] + [(last.1, g[|g| - 1].1 + [last.0])];
      } else {
        assert Groups(events) == g + [(last.1, [last.0])];
        assert g[..|g| - 1] + [g[|g| - 1]] == g;
      }
    } else if |events| == 1 {
      assert events[..0] == [];
    }
  }

  /** Nothing is lost or reordered: the written batches followed by the
      buffer are the records in arrival order. */
  lemma {:induction false} RunConserves<R>(st: State<R>, events: seq<(R, string)>)
    ensures Concat(Run(st, events).flushed) + Run(st, events).buffer
            == Concat(st.flushed) + st.buffer + Records(events)
  {
    if events != [] {
      var prev := events[..|events| - 1];
      var last := events[|events| - 1];
      RunConserves(st, prev);
      var mid := Run(st, prev);
      var after := Run(st, events);
      assert Records(events) == Records(prev) + [last.0];
      if mid.currentMinute != "" && mid.currentMinute != last.1 && mid.buffer != [] {
        ConcatSnoc(mid.flushed, (mid.currentMinute, mid.buffer));
        assert Concat(after.flushed) == Concat(mid.flushed) + mid.buffer;
      }
      assert Concat(after.flushed) + after.buffer == Concat(mid.flushed) + mid.buffer + [last.0];
    }
  }

  /** Every batch written holds at least one record. */
  lemma {:induction false} RunBatchesNonEmpty<R>(st: State<R>, events: seq<(R, string)>)
    requires forall i :: 0 <= i < |st.flushed| ==> st.flushed[i].1 != []
    ensures forall i :: 0 <= i < |Run(st, events).flushed| ==> Run(st, events).flushed[i].1 != []
  {
    if events != [] {
      RunBatchesNonEmpty(st, events[..|events| - 1]);
    }
  }

  function Records<R>(events: seq<(R, string)>): (rs: seq<R>)
    ensures |rs| == |events|
  {
    if events == [] then [] else Records(events[..|events| - 1]) + [events[|events| - 1].0]
  }

  function Concat<R>(batches: seq<(string, seq<R>)>): seq<R>
  {
    if batches == [] then [] else Concat(batches[..|batches| - 1]) + batches[|batches| - 1].1
  }

  lemma ConcatSnoc<R>(batches: seq<(string, seq<R>)>, b: (string, seq<R>))
    ensures Concat(batches + [b]) == Concat(batches) + b.1
  {
    assert (batches + [b])[..|batches|] == batches;
  }

  /** The handler object: `_buffer_and_maybe_flush` and `_flush_to_pickle`
      update its fields in place. */
  class MinuteBuffer<R> {
    var buffer: seq<R>
    var currentMinute: string
    var flushed: seq<(string, seq<R>)>

    function Snapshot(): State<R>
      reads this
    {
      State(buffer, currentMinute, flushed)
    }

    constructor()
      ensures Snapshot() == Init()
    {
      buffer := [];
      currentMinute := "";
      flushed := [];
    }

    /** `_flush_to_pickle`: writes the buffer as one batch unless it is empty. */
    method FlushToPickle()
      modifies this
      ensures flushed == Flush(old(Snapshot()))
      ensures buffer == old(buffer) && currentMinute == old(currentMinute)
    {
      if buffer == [] {
        return;
      }
      flushed := flushed + [(currentMinute, buffer)];
    }

    /** `_buffer_and_maybe_flush`, with the minute read from the clock passed in. */
    method BufferAndMaybeFlush(rec: R, minuteKey: string)
      modifies this
      ensures Snapshot() == Step(old(Snapshot()), rec, minuteKey)
    {
      if currentMinute == "" {
        currentMinute := minuteKey;
      }
      if minuteKey != currentMinute {
        FlushToPickle();
        buffer := [];
        currentMinute := minuteKey;
      }
      buffer := buffer + [rec];
    }
  }
}
