/** The feed handler's order-book transformer
    (feedhandler/src/transformers/order_book_transformer.py): levels are
    4-tuples `(price, volume, qty, detail)` and the flat record gains a
    `time` key, the earlier of the two receive times. */
module FeedOrderBook {
  import opened Values
  import opened BookLevels

  /** Python's `<=` on two `str`s: code point by code point, a prefix first. */
  predicate LexLessEq(a: string, b: string)
    decreases |a|
  {
    a == [] || (b != [] && (a[0] < b[0] || (a[0] == b[0] && LexLessEq(a[1..], b[1..]))))
  }

  lemma {:induction false} LexLessEqReflexive(a: string)
    ensures LexLessEq(a, a)
    decreases |a|
  {
    if a != [] { LexLessEqReflexive(a[1..]); }
  }

  lemma {:induction false} LexLessEqTotal(a: string, b: string)
    ensures LexLessEq(a, b) || LexLessEq(b, a)
    decreases |a|
  {
    if a != [] && b != [] && a[0] == b[0] { LexLessEqTotal(a[1..], b[1..]); }
  }

  /** `pick_time_str`: the earlier of two ISO time strings, or the one that is
      present. Ordering two present values that are not both strings is
      outside the model and reported as `Incomparable`. */
  function PickTimeStr(bid: Value, ask: Value): (r: Result<Value, PivotError>)
    ensures bid == Null ==> r == Ok(ask)
    ensures bid != Null && ask == Null ==> r == Ok(bid)
    ensures r.Ok? ==> r.value == bid || r.value == ask
    ensures bid.Str? && ask.Str? ==> r.Ok? && r.value.Str? && LexLessEq(r.value.s, bid.s) && LexLessEq(r.value.s, ask.s)
    ensures r.Err? <==> bid != Null && ask != Null && !(bid.Str? && ask.Str?)
  {
    if bid == Null then Ok(ask)
    else if ask == Null then Ok(bid)
    else if bid.Str? && ask.Str? then
      LexLessEqReflexive(bid.s);
      LexLessEqReflexive(ask.s);
      LexLessEqTotal(bid.s, ask.s);
      Ok(if LexLessEq(bid.s, ask.s) then bid else ask)
    else Err(Incomparable)
  }

  /** The keys of a flat record besides its levels. */
  const Header: set<string> := {"code", "time", "name", "svr_recv_time_bid", "svr_recv_time_ask"}

  /** `out` is the flat form of `raw` with `time` as its time: exactly the
      header keys and the level keys of both sides, the identity fields
      copied, and level i of each side taken from entry i-1 of its list. */
  ghost predicate IsFlat(raw: map<string, Value>, depth: int, time: Value, out: map<string, Value>)
    requires HasRequired(raw)
  {
    && out.Keys == Header + SideKeys(Bid, depth) + SideKeys(Ask, depth)
    && out["code"] == raw["code"]
    && out["name"] == raw["name"]
    && out["svr_recv_time_bid"] == raw["svr_recv_time_bid"]
    && out["svr_recv_time_ask"] == raw["svr_recv_time_ask"]
    && out["time"] == time
    && LevelsOk(Entries(raw["Bid"]), depth, 4)
    && LevelsOk(Entries(raw["Ask"]), depth, 4)
    && (forall i: nat, f: Field | 1 <= i <= depth ::
          LevelKey(Bid, i, f) in out && out[LevelKey(Bid, i, f)] == SlotValue(LevelSlot(Entries(raw["Bid"]), i - 1, 4), f))
    && (forall i: nat, f: Field | 1 <= i <= depth ::
          LevelKey(Ask, i, f) in out && out[LevelKey(Ask, i, f)] == SlotValue(LevelSlot(Entries(raw["Ask"]), i - 1, 4), f))
  }

  /** The dict `pivot` starts from. */
  function Seed(raw: map<string, Value>, time: Value): (flat: map<string, Value>)
    requires HasRequired(raw)
    ensures flat.Keys == RecordFields
    ensures flat["code"] == raw["code"] && flat["name"] == raw["name"] && flat["time"] == time
    ensures flat["svr_recv_time_bid"] == raw["svr_recv_time_bid"] && flat["svr_recv_time_ask"] == raw["svr_recv_time_ask"]
    ensures flat["Bid"] == raw["Bid"] && flat["Ask"] == raw["Ask"]
  {
    map["code" := raw["code"], "time" := time, "name" := raw["name"],
        "svr_recv_time_bid" := raw["svr_recv_time_bid"], "svr_recv_time_ask" := raw["svr_recv_time_ask"],
        "Bid" := raw["Bid"], "Ask" := raw["Ask"]]
  }

  /** Writing both sides into the seed and popping Bid/Ask gives the flat form. */
  lemma SeedThenSides(raw: map<string, Value>, depth: int, time: Value, afterBid: map<string, Value>, afterAsk: map<string, Value>)
    requires HasRequired(raw)
    requires Filled(Seed(raw, time), afterBid, Bid, Entries(raw["Bid"]), depth, 4)
    requires Filled(afterBid, afterAsk, Ask, Entries(raw["Ask"]), depth, 4)
    ensures IsFlat(raw, depth, time, afterAsk - {"Bid", "Ask"})
  {
    var flat := Seed(raw, time);
    FlattenBoth(flat, afterBid, afterAsk, Entries(raw["Bid"]), Entries(raw["Ask"]), depth, 4);
    HeaderFields();
  }

  /** The header is what remains of the seeded fields once Bid and Ask are popped. */
  lemma HeaderFields()
    ensures RecordFields - {"Bid", "Ask"} == Header
    ensures forall k :: k in Header ==> k in RecordFields && k !in {"Bid", "Ask"}
  {
  }

  class OrderBookTransformer {
    const depth: int

    constructor(depth: int)
      ensures this.depth == depth
    {
      this.depth := depth;
    }

    /** `pivot`: the record with its Bid/Ask lists spread into
        `bid{i}_price`, `bid{i}_volume`, `bid{i}_qty` (and ask) for i in
        1..depth, None past the end of a list. Fails on the first missing
        required field, on receive times it cannot order, and on the first
        level entry that is not a 4-tuple. */
    method Pivot(raw: map<string, Value>) returns (r: Result<map<string, Value>, PivotError>)
      ensures !HasRequired(raw) ==> r.Err? && r.error.MissingField? && IsFirstMissing(raw, r.error.key)
      ensures HasRequired(raw) ==>
                (r.Ok? <==> && PickTimeStr(raw["svr_recv_time_bid"], raw["svr_recv_time_ask"]).Ok?
                            && LevelsOk(Entries(raw["Bid"]), depth, 4)
                            && LevelsOk(Entries(raw["Ask"]), depth, 4))
      ensures HasRequired(raw) ==> !(r.Err? && r.error.MissingField?)
      ensures HasRequired(raw) && PickTimeStr(raw["svr_recv_time_bid"], raw["svr_recv_time_ask"]).Err? ==>
                r == Err(Incomparable)
      ensures HasRequired(raw) && PickTimeStr(raw["svr_recv_time_bid"], raw["svr_recv_time_ask"]).Ok?
              && !LevelsOk(Entries(raw["Bid"]), depth, 4) ==>
                r.Err? && r.error.BadLevel? && r.error.side == Bid
      ensures HasRequired(raw) && PickTimeStr(raw["svr_recv_time_bid"], raw["svr_recv_time_ask"]).Ok?
              && LevelsOk(Entries(raw["Bid"]), depth, 4) && !LevelsOk(Entries(raw["Ask"]), depth, 4) ==>
                r.Err? && r.error.BadLevel? && r.error.side == Ask
      ensures HasRequired(raw) && r.Err? && r.error.BadLevel? && r.error.side == Bid ==>
                FirstBroken(Entries(raw["Bid"]), depth, 4, r.error.level)
      ensures HasRequired(raw) && r.Err? && r.error.BadLevel? && r.error.side == Ask ==>
                LevelsOk(Entries(raw["Bid"]), depth, 4) && FirstBroken(Entries(raw["Ask"]), depth, 4, r.error.level)
      ensures HasRequired(raw) && r.Ok? ==>
                IsFlat(raw, depth, PickTimeStr(raw["svr_recv_time_bid"], raw["svr_recv_time_ask"]).value, r.value)
    {
      var missing := CheckRequired(raw);
      if missing.Some? {
        return Err(MissingField(missing.value));
      }
      var bidTime, askTime := raw["svr_recv_time_bid"], raw["svr_recv_time_ask"];
      var time := PickTimeStr(bidTime, askTime);
      if time.Err? {
        return Err(time.error);
      }
      var flat := Seed(raw, time.value);
      var bid := FillSide(flat, Bid, Entries(raw["Bid"]), depth, 4);
      FillSpec(flat, Bid, Entries(raw["Bid"]), depth, 4);
      if bid.Err? {
        return Err(BadLevel(Bid, bid.error));
      }
      var ask := FillSide(bid.value, Ask, Entries(raw["Ask"]), depth, 4);
      FillSpec(bid.value, Ask, Entries(raw["Ask"]), depth, 4);
      if ask.Err? {
        return Err(BadLevel(Ask, ask.error));
      }
      SeedThenSides(raw, depth, time.value, bid.value, ask.value);
      r := Ok(ask.value - {"Bid", "Ask"});
    }
  }
}
