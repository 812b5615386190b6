# futu_DB feed handler core, modelled in Dafny

This project models the parts of the futu_DB feed handler that hold decisions
of their own:

- the **fan-out publisher**. It copies every `(table, data)` pair into one
  bounded queue per sink, and drains each queue into its sink through a
  worker. The worker reconnects with exponential backoff and retries failed
  publishes. Modules `Sinks` and `Fanout`.
- the two **order-book transformers**. `pivot` spreads a record's Bid/Ask
  level lists into flat `bid{i}_price` / `bid{i}_volume` / `bid{i}_qty` keys
  (and ask). Module `FeedOrderBook` covers the feed-handler copy: 4-tuples, and
  a `time` key chosen by `pick_time_str`. Module `LegacyOrderBook` covers the
  older copy: 3-tuples, no `time`. `BookLevels` holds what both share, and
  `Decimal` proves that level numbers render to distinct keys.
- the **field-cleaning pre-validator** `CleanModel._clean_all`. Both copies
  are covered by module `CleanModel`.
- the **minute-bucket buffer** of the real-time data handler. Module
  `RtDataBuffer`.

## How each part is modelled

Each part keeps the form it has in the source.

- **A sink's state.** `_SinkState` becomes the datatype `Sinks.SinkState`:
  - its queue's contents as a `seq`;
  - the counters `enq`, `sent`, `dropped` and `errors`;
  - `connected`, the backoff in milliseconds, and the kind of the last error.
- **The publisher.** `Fanout.FanoutPublisher` is a class.
  - Its field `states` maps each sink name to that sink's state.
  - `Publish`, `EnsureConnected`, `WorkerStep` and `Close` update `states` in place.
  - Each of them is proved equal to a specification function in `Sinks` or `Fanout`. Lemmas about those functions state what the source promises.
- **The sink's callbacks.** These are `connect_fn`, `is_ready_fn` and `publish_fn`. They answer from a `Sinks.Script`:
  - a `bool` per connect attempt;
  - a `Ready | NotReady | ProbeRaises` per probe;
  - a `Success | Recoverable | Fatal` per publish call.

  Running out of the connect script stands for the stop event being set while `_ensure_connected` waited; the publisher's own stop flag is not set by it. Running out of the probe script also makes `_ensure_connected` return false, which the source does not do right after a connect (see "## Left out"). Running out of the publish script ends the retry loop early, which the source never does (see "## Left out").
- **The worker thread.** `WorkerStep` models one iteration of the worker's loop. Any caller may interleave it with `Publish`.
- **`pivot`.** It is a method that fills the flat map.
  - The per-side loop is `BookLevels.FillSide`. It is proved equal to the function `FillFrom`, and `FillSpec` states what that loop promises.
  - `Pivot` proves the result is the flat form `IsFlat` of the record, or an error.
- **`_clean_all`.** It is the method `CleanAll`, a loop that fills a new map. Python's `float()`, `int()` and `datetime.fromisoformat()` are given functions that may fail (`Conversions`).
- **The minute-bucket buffer.** It is the class `MinuteBuffer`. The clock reading is a parameter. Each pickle write is appended to a log of `(minute, batch)` pairs.

Where the code and its documentation disagree, the model follows the code:

- The `"block"` drop policy never blocks. `publish` always uses `put_nowait`, so under `"block"` a full queue counts a drop, as under `"drop_newest"`.
- `close` does not drain the queues. A worker checks the stop flag before it takes the next entry, so entries still queued at `close` may never be published.

## Model

| member | source | states |
|---|---|---|
| Sinks.DefaultConfig | feedhandler/src/publishers/fanout_publisher.py:11-27 | the dataclass defaults: queue of 10000, one retry, reconnect backoff 0.5 s initial and max, no requeue |
| Sinks.Initial | feedhandler/src/publishers/fanout_publisher.py:107-111 | a sink starts with an empty queue, disconnected, backoff at `reconnect_initial`, all counters zero and no `last_err` |
| Sinks.OfferRule | feedhandler/src/publishers/fanout_publisher.py:57-75 | overload rule for one sink: drop_oldest on a full queue removes the head, counts one drop, appends the entry and counts one `enq`; any other policy on a full queue counts one drop and keeps queue and `enq`; with room the entry goes to the tail and `enq` rises; nothing else changes; the queue stays within `max_queue` |
| Sinks.OfferAllWindow | feedhandler/src/publishers/fanout_publisher.py:57-75 | after any run of publishes a bounded queue holds the newest `max_queue` entries (drop_oldest) or the oldest (otherwise); every entry not kept is counted in `dropped`; `enq` counts every entry under drop_oldest and only kept ones otherwise |
| Sinks.OfferAllBounded | feedhandler/src/publishers/fanout_publisher.py:61-72 | no run of publishes takes a queue past `max_queue` |
| Sinks.SafeIsReady | feedhandler/src/publishers/fanout_publisher.py:141-146 | true exactly when the probe reports ready; a raising probe reads as false and sets `last_err`; nothing else changes |
| Sinks.NextBackoff | feedhandler/src/publishers/fanout_publisher.py:138 | the next backoff never exceeds the max, is at least the initial value when initial <= max, and is exactly double when double lies in range |
| Sinks.BackoffSchedule | feedhandler/src/publishers/fanout_publisher.py:125-138 | from the initial backoff, k failed rounds leave it at min(max, initial * 2^k) |
| Sinks.ReconnectLoop | feedhandler/src/publishers/fanout_publisher.py:125-139 | the retry loop: success leaves the sink connected with the backoff reset to the initial value; only `connected`, backoff and `last_err` change; a backoff in range stays in range; publish outcomes are untouched |
| Sinks.ConnectOutcome | feedhandler/src/publishers/fanout_publisher.py:114-139 | `_ensure_connected` changes only `connected`, the backoff and `last_err`, keeps the backoff in range and takes no publish outcome |
| Sinks.ConnectRule | feedhandler/src/publishers/fanout_publisher.py:114-139 | `_ensure_connected`: false and no change once stop is set; true and connected with no callbacks; true without calling connect when already connected and ready; success implies connected |
| Sinks.FailingConnects | feedhandler/src/publishers/fanout_publisher.py:125-138 | k failing connects in a row fail, leave the sink disconnected with `last_err` set, and grow the backoff k times |
| Sinks.ConnectAfterFailures | feedhandler/src/publishers/fanout_publisher.py:125-132 | for a sink without `is_ready_fn`: after k failing connects, one that succeeds connects the sink, resets the backoff and consumes exactly k + 1 connect outcomes |
| Sinks.Attempts | feedhandler/src/publishers/fanout_publisher.py:169-191 | the retry loop makes at most `retry_times + 1` publish calls, each taking one scripted outcome |
| Sinks.AttemptsCalls | feedhandler/src/publishers/fanout_publisher.py:169-191 | at most `retry_times + 1` calls, each taking the next outcome; every call but the last met a recoverable failure; published iff the last call succeeded; a fatal failure stops early |
| Sinks.AttemptsCounters | feedhandler/src/publishers/fanout_publisher.py:172-191 | success adds one to `sent` and clears `last_err`; each failed call counted once in `errors`; queue, `enq` and `dropped` untouched; backoff stays in range |
| Sinks.AttemptsAccounted | feedhandler/src/publishers/fanout_publisher.py:169-191 | both of the above hold for every run of the retry loop |
| Sinks.RecoverableReconnects | feedhandler/src/publishers/fanout_publisher.py:181-186 | for a sink with `connect_fn`, no `is_ready_fn` and a connect that succeeds, a recoverable failure counts an error, marks the sink disconnected and reconnects it, resetting the backoff, before the next try |
| Sinks.ReconnectsCounted | feedhandler/src/publishers/fanout_publisher.py:171-186 | with every connect succeeding, the retry loop calls `connect_fn` exactly once per recoverable failure among its calls |
| Sinks.ReconnectsRestore | feedhandler/src/publishers/fanout_publisher.py:171-186 | with every connect succeeding, after any recoverable failure the sink ends connected with the initial backoff; with none, `connected` and the backoff are as before |
| Sinks.AttemptsReconnect | feedhandler/src/publishers/fanout_publisher.py:171-186 | both of the above hold for every run of the retry loop |
| Sinks.AttemptsExhaustOrFatal | feedhandler/src/publishers/fanout_publisher.py:169-191 | with an outcome for every try, a failed delivery used all `retry_times + 1` tries or ended on a fatal failure |
| Sinks.Requeue | feedhandler/src/publishers/fanout_publisher.py:194-198 | a failed entry goes back at the tail, or counts one drop when the queue is full |
| Sinks.WorkerOutcome | feedhandler/src/publishers/fanout_publisher.py:154-161 | a stopped worker exits with nothing changed; an empty queue is an idle iteration; a dequeued sentinel makes the worker exit |
| Sinks.WorkerOutcomeStatus | feedhandler/src/publishers/fanout_publisher.py:163-191 | a dequeued entry is skipped exactly when `_ensure_connected` fails, with no publish call; otherwise at most `retry_times + 1` publish calls are made and it is delivered exactly when the last one succeeded, failed otherwise |
| Sinks.WorkerOutcomeCounts | feedhandler/src/publishers/fanout_publisher.py:148-200 | the queue and counter effects listed for `WorkerOutcomeKeeps` |
| Sinks.WorkerOutcomeKeeps | feedhandler/src/publishers/fanout_publisher.py:148-200 | a dequeued entry is skipped, delivered or failed by the rule of `WorkerOutcomeStatus`; one worker iteration consumes the head of the queue whenever it delivers, skips or fails; a failed entry with requeue set goes back at the tail when the rest of the queue has room, and otherwise is one more drop; nothing else is dropped; `sent` rises only on delivery; `enq` unchanged; `errors` never falls; queue bound and backoff range kept |
| Fanout.Configs | feedhandler/src/publishers/fanout_publisher.py:50 | one config per configured name |
| Fanout.ConfigsLastWins | feedhandler/src/publishers/fanout_publisher.py:50 | a name given twice keeps the config given last |
| Fanout.Names | feedhandler/src/publishers/fanout_publisher.py:50 | the dict's key order lists every configured name once |
| Fanout.PublishAll | feedhandler/src/publishers/fanout_publisher.py:58-75 | `publish` offers the entry to every sink and adds or removes none |
| Fanout.PublishAllWf | feedhandler/src/publishers/fanout_publisher.py:57-75 | `publish` keeps every queue within its `max_queue` |
| Fanout.WithSentinel | feedhandler/src/publishers/fanout_publisher.py:79-81 | `close` appends the `(None, None)` sentinel where there is room and ignores a full queue |
| Fanout.SentinelWf | feedhandler/src/publishers/fanout_publisher.py:79-81 | enqueuing the sentinels keeps every queue within its bound |
| Fanout.CloseCallsOnce | feedhandler/src/publishers/fanout_publisher.py:89-93 | `close` calls the `close_fn` of every configured sink that has one exactly once, and no other |
| Fanout.FanoutPublisher.constructor | feedhandler/src/publishers/fanout_publisher.py:49-54 | configs keyed by name, the given policy, every sink in its initial state, not stopped |
| Fanout.FanoutPublisher.StartWorkers | feedhandler/src/publishers/fanout_publisher.py:107-112 | one fresh state per configured sink, none for any other name |
| Fanout.FanoutPublisher.Publish | feedhandler/src/publishers/fanout_publisher.py:57-75 | the new states are `PublishAll` of the old: each sink applies the overload rule to its own queue |
| Fanout.FanoutPublisher.OfferEach | feedhandler/src/publishers/fanout_publisher.py:58-75 | the loop over the sinks in dict order produces `PublishAll` |
| Fanout.FanoutPublisher.OfferTo | feedhandler/src/publishers/fanout_publisher.py:59-75 | the loop body for one sink is `Offer` |
| Fanout.FanoutPublisher.EnsureConnected | feedhandler/src/publishers/fanout_publisher.py:114-139 | result, new sink state and remaining script are those of `ConnectOutcome`; other sinks untouched; the publisher stays well formed |
| Fanout.FanoutPublisher.Connect | feedhandler/src/publishers/fanout_publisher.py:115-139 | the body of `_ensure_connected` computes `ConnectOutcome` |
| Fanout.FanoutPublisher.Reconnect | feedhandler/src/publishers/fanout_publisher.py:125-139 | the `while` retry loop computes `ReconnectLoop` |
| Fanout.FanoutPublisher.WorkerStep | feedhandler/src/publishers/fanout_publisher.py:154-200 | status, new sink state and remaining script are those of `WorkerOutcome`; other sinks untouched; the publisher stays well formed |
| Fanout.FanoutPublisher.WorkerIteration | feedhandler/src/publishers/fanout_publisher.py:155-200 | the loop body of `_worker` computes `WorkerOutcome` |
| Fanout.FanoutPublisher.Deliver | feedhandler/src/publishers/fanout_publisher.py:169-191 | the `for` retry loop computes `Attempts` |
| Fanout.FanoutPublisher.Close | feedhandler/src/publishers/fanout_publisher.py:77-93 | stop set; the sentinel offered to every queue; the `close_fn` calls of `CloseCalls` appended in dict order |
| Fanout.FanoutPublisher.SentinelEach | feedhandler/src/publishers/fanout_publisher.py:79-81 | the sentinel loop gives every sink `WithSentinel` |
| Fanout.FanoutPublisher.CloseEach | feedhandler/src/publishers/fanout_publisher.py:89-93 | the `close_fn` loop calls exactly `CloseCalls` |
| Fanout.FanoutPublisher.Counters | feedhandler/src/publishers/fanout_publisher.py:95-103 | one entry per sink; `queued` is the queue length and never exceeds a positive `max_queue`; every other field is the sink's current counter or flag |
| FeedOrderBook.PickTimeStr | feedhandler/src/transformers/order_book_transformer.py:19-33 | `ask` when `bid` is None, `bid` when `ask` is None, otherwise the lexicographically smaller string; always one of its arguments |
| FeedOrderBook.LexLessEqTotal | feedhandler/src/transformers/order_book_transformer.py:33 | any two strings are ordered one way or the other by `<=` |
| FeedOrderBook.Seed | feedhandler/src/transformers/order_book_transformer.py:44-52 | the starting dict holds code, time, name, both times and the Bid/Ask lists, copied |
| FeedOrderBook.SeedThenSides | feedhandler/src/transformers/order_book_transformer.py:54-67 | writing both sides' levels into the seed and popping Bid/Ask yields the flat form |
| FeedOrderBook.OrderBookTransformer.constructor | feedhandler/src/transformers/order_book_transformer.py:16-17 | keeps the requested depth |
| FeedOrderBook.OrderBookTransformer.Pivot | feedhandler/src/transformers/order_book_transformer.py:35-69 | a missing required field fails with the first one missing, and only then is a field reported missing; otherwise times that cannot be ordered fail as such, then a bid level that does not unpack into 4 fails as the first such bid level, then likewise for ask; success iff none of these; on success exactly the header keys (code, time, name, both times) plus every level key, identity fields copied, `time` from `pick_time_str`, level i from entry i-1 or None past the end |
| LegacyOrderBook.Seed | src/transformers/order_book_transformer.py:22-29 | the starting dict holds code, name, both times and the Bid/Ask lists, copied |
| LegacyOrderBook.SeedThenSides | src/transformers/order_book_transformer.py:31-44 | writing both sides' levels into the seed and popping Bid/Ask yields the flat form |
| LegacyOrderBook.OrderBookTransformer.constructor | src/transformers/order_book_transformer.py:13-14 | keeps the requested depth |
| LegacyOrderBook.OrderBookTransformer.Pivot | src/transformers/order_book_transformer.py:16-46 | a missing required field fails with the first one missing, and only then is a field reported missing; otherwise a bid level that does not unpack into 3 fails as the first such bid level, then likewise for ask; success iff none of these; on success exactly code, name, both times and every level key, identity fields copied, level i from entry i-1 or None past the end |
| BookLevels.CheckRequired | feedhandler/src/transformers/order_book_transformer.py:37-39 | reports no field iff all six required fields are present, else the first missing one in checking order (the same check as lines 18-20 of the older copy) |
| BookLevels.LevelKeyInjective | feedhandler/src/transformers/order_book_transformer.py:62-64 | different (side, level, field) triples never write the same flat key |
| BookLevels.SideKeysDisjoint | feedhandler/src/transformers/order_book_transformer.py:54-64 | the bid keys and the ask keys never overlap |
| BookLevels.Unpack | feedhandler/src/transformers/order_book_transformer.py:58 | unpacking never raises IndexError; a successful unpack has exactly as many values as names |
| BookLevels.LevelSlot | feedhandler/src/transformers/order_book_transformer.py:57-60 | indexing a list gives IndexError exactly past its end; a side that is not a sequence fails to index |
| BookLevels.AbsentSideIsEmpty | feedhandler/src/transformers/order_book_transformer.py:55 | a None or empty side yields None at every level |
| BookLevels.FillSide | feedhandler/src/transformers/order_book_transformer.py:56-64 | the per-side `for i` loop computes `FillFrom` |
| BookLevels.FillSpec | feedhandler/src/transformers/order_book_transformer.py:56-64 | the side loop succeeds iff every level in 1..depth unpacks, reports the first that does not, and on success has written all three keys of every level and left other keys alone |
| BookLevels.FillFromOutcome | feedhandler/src/transformers/order_book_transformer.py:56-60 | from any point of the loop: success iff no level fails to unpack, the error being the first failing level |
| BookLevels.FillFromFilled | src/transformers/order_book_transformer.py:33-41 | from any point of the loop: a successful loop leaves every level's keys written with entry i-1's values and other keys untouched |
| BookLevels.FlattenBoth | feedhandler/src/transformers/order_book_transformer.py:54-67 | once both sides are written and Bid/Ask popped, the keys are the seeded header plus both sides' level keys, with header values and level values as written |
| Decimal.NatToString | feedhandler/src/transformers/order_book_transformer.py:62 | `{i}` renders a non-empty run of digits with no leading zero |
| Decimal.ParseNatToString | feedhandler/src/transformers/order_book_transformer.py:62 | parsing the rendered digits gives the level number back |
| Decimal.NatToStringInjective | feedhandler/src/transformers/order_book_transformer.py:62 | two different level numbers never render alike |
| CleanModel.CleanValue | feedhandler/src/models/clean_model.py:14-43 | placeholders None, '' and 'N/A' become None; undeclared keys and non-primitive fields keep their value; float, int and datetime fields hold the converted value, or None exactly when conversion raises; bool fields hold truthiness; no placeholder string survives |
| CleanModel.Cleaned | feedhandler/src/models/clean_model.py:12-44 | the cleaned dict has exactly the input's keys |
| CleanModel.CleanAll | feedhandler/src/models/clean_model.py:11-44 | the loop over `values.items()` builds `Cleaned` (models.py:10-44 is an identical copy) |
| CleanModel.CleanValueIdempotent | models.py:14-42 | when `float` and `int` leave a value of their own type unchanged, cleaning a cleaned value again changes nothing unless the field is a datetime |
| CleanModel.CleanedIdempotent | models.py:10-44 | without datetime fields, cleaning a cleaned record again changes nothing |
| RtDataBuffer.Flush | feedhandler/src/handlers/rt_data_handler.py:52-60 | an empty buffer writes nothing; otherwise one batch labelled with the current minute |
| RtDataBuffer.Step | feedhandler/src/handlers/rt_data_handler.py:38-50 | after a call the minute is the call's key and the record is last in the buffer; on the first call or the same minute it is appended with nothing written; on a new minute the old batch is written under the old minute and the buffer restarts with the record |
| RtDataBuffer.RunGroups | feedhandler/src/handlers/rt_data_handler.py:38-50 | from a fresh handler, the batches written are exactly the completed runs of equal minutes, in arrival order, and the buffer holds the current run |
| RtDataBuffer.RunConserves | feedhandler/src/handlers/rt_data_handler.py:38-60 | written batches followed by the buffer are the records in arrival order: none lost, duplicated or reordered |
| RtDataBuffer.RunBatchesNonEmpty | feedhandler/src/handlers/rt_data_handler.py:53-54 | no written batch is empty |
| RtDataBuffer.MinuteBuffer.constructor | feedhandler/src/handlers/rt_data_handler.py:20-21 | an empty buffer with no current minute |
| RtDataBuffer.MinuteBuffer.FlushToPickle | feedhandler/src/handlers/rt_data_handler.py:52-60 | the log becomes `Flush` of the old state; buffer and minute untouched |
| RtDataBuffer.MinuteBuffer.BufferAndMaybeFlush | feedhandler/src/handlers/rt_data_handler.py:38-50 | the new state is `Step` of the old state, the record and the minute key |

## Left out

- Threads, `threading.Event`, `q.get(timeout=...)`, `q.task_done`, `q.join()`, `t.join(...)`, `time.sleep` and `time.time`. Each worker iteration is one atomic step, and interleavings are not explored.
- Fanout.FanoutPublisher.Close: does not model `wait`, the joins or the timeout.
  - Because a stopped worker exits without draining (`Sinks.WorkerOutcome`), `q.join()` in `close(wait=True)` can wait on entries no worker will take.
  - The `timeout` argument bounds only the thread joins, not `q.join()`.
- `retry_backoff_s` is only a sleep, so it is not a config field. The reconnect durations are whole milliseconds instead of float seconds.
- `last_err` records which step failed (connect, probe, recoverable or fatal publish), not the exception's text.
- The `recoverable` exception tuple is replaced by the `Recoverable` outcome tag, and the callbacks are scripts.
  - Running out of the connect script stands for the stop event being set while `_ensure_connected` waited, so it returns false. The model does not also set the publisher's `stopping` flag for the rest of the run.
- Sinks.ReconnectLoop: a probe script that runs out right after `connect_fn` makes the loop return false, although the source calls `is_ready_fn` straight after `connect_fn` with no stop check and no wait; the same holds for the probe of an already connected sink in `Sinks.ConnectOutcome`.
- Sinks.Attempts: a publish script shorter than `retry_times + 1` ends the retry loop without a further `publish_fn` call, which the source never does; its loop does not check the stop event and calls `publish_fn` on every try. `Sinks.AttemptsExhaustOrFatal` gives the source's behaviour when every try has a scripted outcome.
  - What the callbacks do with `(table, data)` is outside the model.
- Logging has no semantic content and is not modelled.
- CleanModel.CleanValue: pydantic's `outer_type_` is taken as the field's type tag.
  - The `Optional[T]` unwrap is not modelled, because pydantic already reports `T` there.
  - The conversions themselves are given functions, because they live in the Python runtime.
- CleanModel.CleanAll: the order in which `values.items()` is visited is not modelled. The result is the same map whatever the order.
- Objects the model does not look inside (`Opaque`) count as true in Python truthiness tests.
- FeedOrderBook.PickTimeStr: two present times that are not both strings are reported as `Incomparable` instead of being ordered, even where Python could order them (two numbers).
- The key order of the flat dict is not modelled. The flat record is a map.
- RtDataBuffer.MinuteBuffer.FlushToPickle: the file write is a log entry.
  - `sample_dir`, the file name, and the overwrite of `<minute>.pkl` when a minute comes back are not modelled.
  - The log keeps every batch.
- The real-time callback `on_recv_rsp` and its validation of incoming records are not modelled. The buffer takes records that are already validated.
