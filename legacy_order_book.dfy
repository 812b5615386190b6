/** The earlier order-book transformer (src/transformers/order_book_transformer.py):
    levels are 3-tuples `(price, volume, qty)` and the flat record has no
    `time` key. */
module LegacyOrderBook {
  import opened Values
  import opened BookLevels

  /** The keys of a flat record besides its levels. */
  const Header: set<string> := {"code", "name", "svr_recv_time_bid", "svr_recv_time_ask"}

  /** `out` is the flat form of `raw`: exactly the header keys and the level
      keys of both sides, the identity fields copied, and level i of each
      side taken from entry i-1 of its list. */
  ghost predicate IsFlat(raw: map<string, Value>, depth: int, out: map<string, Value>)
    requires HasRequired(raw)
  {
    && out.Keys == Header + SideKeys(Bid, depth) + SideKeys(Ask, depth)
    && out["code"] == raw["code"]
    && out["name"] == raw["name"]
    && out["svr_recv_time_bid"] == raw["svr_recv_time_bid"]
    && out["svr_recv_time_ask"] == raw["svr_recv_time_ask"]
    && LevelsOk(Entries(raw["Bid"]), depth, 3)
    && LevelsOk(Entries(raw["Ask"]), depth, 3)
    && (forall i: nat, f: Field | 1 <= i <= depth ::
          LevelKey(Bid, i, f) in out && out[LevelKey(Bid, i, f)] == SlotValue(LevelSlot(Entries(raw["Bid"]), i - 1, 3), f))
    && (forall i: nat, f: Field | 1 <= i <= depth ::
          LevelKey(Ask, i, f) in out && out[LevelKey(Ask, i, f)] == SlotValue(LevelSlot(Entries(raw["Ask"]), i - 1, 3), f))
  }

  /** The dict `pivot` starts from. */
  function Seed(raw: map<string, Value>): (flat: map<string, Value>)
    requires HasRequired(raw)
    ensures flat.Keys == Header + {"Bid", "Ask"}
    ensures flat["code"] == raw["code"] && flat["name"] == raw["name"]
    ensures flat["svr_recv_time_bid"] == raw["svr_recv_time_bid"] && flat["svr_recv_time_ask"] == raw["svr_recv_time_ask"]
    ensures flat["Bid"] == raw["Bid"] && flat["Ask"] == raw["Ask"]
  {
    map["code" := raw["code"], "name" := raw["name"],
        "svr_recv_time_bid" := raw["svr_recv_time_bid"], "svr_recv_time_ask" := raw["svr_recv_time_ask"],
        "Bid" := raw["Bid"], "Ask" := raw["Ask"]]
  }

  /** The header and the popped pair lie among the record fields, and the
      header is what remains once Bid and Ask are popped. */
  lemma HeaderFields()
    ensures Header + {"Bid", "Ask"} <= RecordFields
    ensures (Header + {"Bid", "Ask"}) - {"Bid", "Ask"} == Header
    ensures forall k :: k in Header ==> k !in {"Bid", "Ask"}
  {
  }

  /** Writing both sides into the seed and popping Bid/Ask gives the flat form. */
  lemma SeedThenSides(raw: map<string, Value>, depth: int, afterBid: map<string, Value>, afterAsk: map<string, Value>)
    requires HasRequired(raw)
    requires Filled(Seed(raw), afterBid, Bid, Entries(raw["Bid"]), depth, 3)
    requires Filled(afterBid, afterAsk, Ask, Entries(raw["Ask"]), depth, 3)
    ensures IsFlat(raw, depth, afterAsk - {"Bid", "Ask"})
  {
    HeaderFields();
    FlattenBoth(Seed(raw), afterBid, afterAsk, Entries(raw["Bid"]), Entries(raw["Ask"]), depth, 3);
  }

  class OrderBookTransformer {
    const depth: int

    constructor(depth: int)
      ensures this.depth == depth
    {
      this.depth := depth;
    }

    /** `pivot`: the record with its Bid/Ask lists spread into
        `bid{i}_price`, `bid{i}_volume`, `bid{i}_qty` (and ask) for i in
        1..depth, None past the end of a list. Fails on the first missing
        required field and on the first level entry that is not a 3-tuple. */
    method Pivot(raw: map<string, Value>) returns (r: Result<map<string, Value>, PivotError>)
      ensures !HasRequired(raw) ==> r.Err? && r.error.MissingField? && IsFirstMissing(raw, r.error.key)
      ensures HasRequired(raw) ==>
                (r.Ok? <==> LevelsOk(Entries(raw["Bid"]), depth, 3) && LevelsOk(Entries(raw["Ask"]), depth, 3))
      ensures r != Err(Incomparable)
      ensures HasRequired(raw) ==> !(r.Err? && r.error.MissingField?)
      ensures HasRequired(raw) && !LevelsOk(Entries(raw["Bid"]), depth, 3) ==>
                r.Err? && r.error.BadLevel? && r.error.side == Bid
      ensures HasRequired(raw) && LevelsOk(Entries(raw["Bid"]), depth, 3) && !LevelsOk(Entries(raw["Ask"]), depth, 3) ==>
                r.Err? && r.error.BadLevel? && r.error.side == Ask
      ensures HasRequired(raw) && r.Err? && r.error.BadLevel? && r.error.side == Bid ==>
                FirstBroken(Entries(raw["Bid"]), depth, 3, r.error.level)
      ensures HasRequired(raw) && r.Err? && r.error.BadLevel? && r.error.side == Ask ==>
                LevelsOk(Entries(raw["Bid"]), depth, 3) && FirstBroken(Entries(raw["Ask"]), depth, 3, r.error.level)
      ensures HasRequired(raw) && r.Ok? ==> IsFlat(raw, depth, r.value)
    {
      var missing := CheckRequired(raw);
      if missing.Some? {
        return Err(MissingField(missing.value));
      }
      var flat := Seed(raw);
      var bid := FillSide(flat, Bid, Entries(raw["Bid"]), depth, 3);
      FillSpec(flat, Bid, Entries(raw["Bid"]), depth, 3);
      if bid.Err? {
        return Err(BadLevel(Bid, bid.error));
      }
      var ask := FillSide(bid.value, Ask, Entries(raw["Ask"]), depth, 3);
      FillSpec(bid.value, Ask, Entries(raw["Ask"]), depth, 3);
      if ask.Err? {
        return Err(BadLevel(Ask, ask.error));
      }
      SeedThenSides(raw, depth, bid.value, ask.value);
      r := Ok(ask.value - {"Bid", "Ask"});
    }
  }
}
