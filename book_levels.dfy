/** What the two order-book transformers share: the flat key names, how one
    level is looked up in a side's list (the `try ... except IndexError`),
    the required-field check and the loop that writes one side's levels. */
module BookLevels {
  import opened Values
  import Decimal

  datatype Side = Bid | Ask

  datatype Field = Price | Volume | Qty

  datatype PivotError =
    | MissingField(key: string)      // ValueError("Missing required field: ...")
    | Incomparable                   // `bid <= ask` on values Python cannot order
    | BadLevel(side: Side, level: nat) // an entry that is not subscriptable or does not unpack

  /** The key of a side in the raw record. */
  function SideKey(side: Side): string
  {
    match side
    case Bid => "Bid"
    case Ask => "Ask"
  }

  /** `side.lower()`. */
  function SidePrefix(side: Side): string
  {
    match side
    case Bid => "bid"
    case Ask => "ask"
  }

  function FieldName(f: Field): string
  {
    match f
    case Price => "price"
    case Volume => "volume"
    case Qty => "qty"
  }

  /** Position of a field in a level tuple `(price, volume, qty, ...)`. */
  function FieldIndex(f: Field): nat
  {
    match f
    case Price => 0
    case Volume => 1
    case Qty => 2
  }

  /** `f"{side.lower()}{i}_{field}"`. */
  function LevelKey(side: Side, i: nat, f: Field): string
  {
    SidePrefix(side) + Decimal.NatToString(i) + "_" + FieldName(f)
  }

  /** The keys of levels 1..n of one side. */
  function SideKeys(side: Side, n: int): set<string>
  {
    set i: nat, f: Field | 1 <= i <= n && f in {Price, Volume, Qty} :: LevelKey(side, i, f)
  }

  /** The fields every raw record must carry, in the order they are checked. */
  const Required: seq<string> := ["code", "name", "svr_recv_time_bid", "svr_recv_time_ask", "Bid", "Ask"]

  predicate HasRequired(raw: map<string, Value>)
  {
    && "code" in raw && "name" in raw
    && "svr_recv_time_bid" in raw && "svr_recv_time_ask" in raw
    && "Bid" in raw && "Ask" in raw
  }

  /** `key` is the first field of `Required`, in checking order, that `raw` lacks. */
  predicate IsFirstMissing(raw: map<string, Value>, key: string)
  {
    exists k :: 0 <= k < |Required| && key == Required[k] && key !in raw
                && forall k' :: 0 <= k' < k ==> Required[k'] in raw
  }

  /** Every key the flat dict is seeded with before the level loops. */
  const RecordFields: set<string> := {"code", "time", "name", "svr_recv_time_bid", "svr_recv_time_ask", "Bid", "Ask"}

  /** A flat key begins with "bid" or "ask", so it is never one of the record's
      own field names. */
  lemma LevelKeyNotRecordField(side: Side, i: nat, f: Field)
    ensures LevelKey(side, i, f) !in RecordFields
  {
    var k := LevelKey(side, i, f);
    assert k[0] == SidePrefix(side)[0];
  }

  /** No record field is among a side's level keys. */
  lemma RecordFieldsNotLevels(side: Side, n: int)
    ensures RecordFields !! SideKeys(side, n)
  {
    forall k | k in SideKeys(side, n) ensures k !in RecordFields {
      var i: nat, f: Field :| 1 <= i <= n && f in {Price, Volume, Qty} && k == LevelKey(side, i, f);
      LevelKeyNotRecordField(side, i, f);
    }
  }

  /** In `d + "_" + t` with `d` all digits, the first "_" sits at |d|. */
  lemma UnderscoreAfterDigits(d: string, t: string)
    ensures Decimal.AllDigits(d) ==> forall j :: 0 <= j < |d| ==> (d + "_" + t)[j] != '_'
    ensures (d + "_" + t)[|d|] == '_'
  {
  }

  /** A run of digits followed by "_" is determined by where the "_" is. */
  lemma DigitsThenUnderscore(d1: string, t1: string, d2: string, t2: string)
    requires Decimal.AllDigits(d1) && Decimal.AllDigits(d2)
    requires d1 + "_" + t1 == d2 + "_" + t2
    ensures d1 == d2 && t1 == t2
  {
    var k := d1 + "_" + t1;
    UnderscoreAfterDigits(d1, t1);
    UnderscoreAfterDigits(d2, t2);
    assert |d1| == |d2|;
    assert d1 == k[..|d1|] == d2;
    assert t1 == k[|d1| + 1..];
  }

  /** "bid" and "ask" differ in their first letter, and both have three. */
  lemma PrefixThenRest(p1: string, r1: string, p2: string, r2: string)
    requires p1 in {"bid", "ask"} && p2 in {"bid", "ask"}
    requires p1 + r1 == p2 + r2
    ensures p1 == p2 && r1 == r2
  {
    assert (p1 + r1)[0] == p1[0];
    assert (p2 + r2)[0] == p2[0];
    assert r1 == (p1 + r1)[3..];
    assert r2 == (p2 + r2)[3..];
  }

  /** A flat key read as its side prefix and the rest. */
  lemma Regroup(p: string, d: string, n: string)
    ensures p + d + "_" + n == p + (d + "_" + n)
  {
  }

  /** The part of a flat key after the side prefix determines level and field. */
  lemma LevelSuffixInjective(i1: nat, f1: Field, i2: nat, f2: Field)
    requires Decimal.NatToString(i1) + "_" + FieldName(f1) == Decimal.NatToString(i2) + "_" + FieldName(f2)
    ensures i1 == i2 && f1 == f2
  {
    DigitsThenUnderscore(Decimal.NatToString(i1), FieldName(f1), Decimal.NatToString(i2), FieldName(f2));
    Decimal.NatToStringInjective(i1, i2);
  }

  /** Different (side, level, field) triples give different flat keys. */
  lemma LevelKeyInjective(s1: Side, i1: nat, f1: Field, s2: Side, i2: nat, f2: Field)
    requires LevelKey(s1, i1, f1) == LevelKey(s2, i2, f2)
    ensures s1 == s2 && i1 == i2 && f1 == f2
  {
    var r1 := Decimal.NatToString(i1) + "_" + FieldName(f1);
    var r2 := Decimal.NatToString(i2) + "_" + FieldName(f2);
    Regroup(SidePrefix(s1), Decimal.NatToString(i1), FieldName(f1));
    Regroup(SidePrefix(s2), Decimal.NatToString(i2), FieldName(f2));
    PrefixThenRest(SidePrefix(s1), r1, SidePrefix(s2), r2);
    LevelSuffixInjective(i1, f1, i2, f2);
  }

  /** No level keys below level 1. */
  lemma SideKeysNone(side: Side, n: int)
    requires n <= 0
    ensures SideKeys(side, n) == {}
  {
  }

  /** SideKeys grows by the three keys of one level at a time. */
  lemma SideKeysStep(side: Side, n: nat)
    requires n >= 1
    ensures SideKeys(side, n) == SideKeys(side, n - 1) + {LevelKey(side, n, Price), LevelKey(side, n, Volume), LevelKey(side, n, Qty)}
  {
    var lhs, rhs := SideKeys(side, n), SideKeys(side, n - 1) + {LevelKey(side, n, Price), LevelKey(side, n, Volume), LevelKey(side, n, Qty)};
    forall k | k in lhs ensures k in rhs {
      var i: nat, f: Field :| 1 <= i <= n && f in {Price, Volume, Qty} && k == LevelKey(side, i, f);
      if i < n { assert k in SideKeys(side, n - 1); }
    }
    forall k | k in rhs ensures k in lhs {
      if k in SideKeys(side, n - 1) {
        var i: nat, f: Field :| 1 <= i <= n - 1 && f in {Price, Volume, Qty} && k == LevelKey(side, i, f);
      }
    }
  }

  /** The bid keys and the ask keys never overlap. */
  lemma SideKeysDisjoint(n: int)
    ensures SideKeys(Bid, n) !! SideKeys(Ask, n)
  {
    forall k | k in SideKeys(Bid, n) ensures k !in SideKeys(Ask, n) {
      var i: nat, f: Field :| 1 <= i <= n && f in {Price, Volume, Qty} && k == LevelKey(Bid, i, f);
      assert k[0] == 'b';
    }
  }

  /** What `price, volume, qty[, _] = entries[j]` finds: an IndexError (the
      level is filled with None), the unpacked values, or any other error,
      which the transformer does not catch. */
  datatype Slot = Missing | Level(items: seq<Value>) | Broken

  /** `raw.get(side) or []`. */
  function Entries(v: Value): Value
  {
    if Truthy(v) then v else Seq([])
  }

  /** Unpacking a value into exactly `arity` names. */
  function Unpack(v: Value, arity: nat): (r: Slot)
    ensures r.Level? ==> |r.items| == arity
    ensures r != Missing
  {
    match v
    case Seq(items) => if |items| == arity then Level(items) else Broken
    case Str(s) => if |s| == arity then Level(seq(|s|, k requires 0 <= k < |s| => Str([s[k]]))) else Broken
    case _ => Broken
  }

  /** Indexing `entries[j]` and unpacking it into `arity` names. */
  function LevelSlot(entries: Value, j: nat, arity: nat): (r: Slot)
    ensures r.Level? ==> |r.items| == arity
    // IndexError, and only then a level of None, past the end of the list
    ensures entries.Seq? ==> (r == Missing <==> j >= |entries.items|)
    ensures entries.Str? ==> (r == Missing <==> j >= |entries.s|)
    ensures !entries.Seq? && !entries.Str? ==> r == Broken
  {
    match entries
    case Seq(items) => if j < |items| then Unpack(items[j], arity) else Missing
    case Str(s) => if j < |s| then Unpack(Str([s[j]]), arity) else Missing
    case _ => Broken
  }

  /** A side that is None, an empty list or any other falsy value has no
      entries: every level of it is filled with None. */
  lemma AbsentSideIsEmpty(v: Value, j: nat, arity: nat)
    requires !Truthy(v)
    ensures LevelSlot(Entries(v), j, arity) == Missing
  {
  }

  /** The value a level contributes under one field: the tuple's component,
      or None for a level past the end of the list. */
  function SlotValue(slot: Slot, f: Field): Value
    requires !slot.Broken?
    requires slot.Level? ==> |slot.items| >= 3
  {
    if slot.Level? then slot.items[FieldIndex(f)] else Null
  }

  /** No level in 1..depth of this side fails to unpack. */
  predicate LevelsOk(entries: Value, depth: int, arity: nat)
  {
    forall j: nat :: j < depth ==> !LevelSlot(entries, j, arity).Broken?
  }

  /** `level` (1-based, at most `depth`) is the first level whose entry fails to unpack. */
  predicate FirstBroken(entries: Value, depth: int, arity: nat, level: nat)
  {
    && 1 <= level <= depth
    && LevelSlot(entries, level - 1, arity).Broken?
    && forall j: nat :: j < level - 1 ==> !LevelSlot(entries, j, arity).Broken?
  }

  /** The required-field check: reports the first field in `Required` that
      the record lacks, or None when all are present. */
  method CheckRequired(raw: map<string, Value>) returns (missing: Option<string>)
    ensures missing.None? <==> HasRequired(raw)
    ensures missing.Some? ==> IsFirstMissing(raw, missing.value)
  {
    var k := 0;
    while k < |Required|
      invariant 0 <= k <= |Required|
      invariant forall k' :: 0 <= k' < k ==> Required[k'] in raw
    {
      if Required[k] !in raw {
        return Some(Required[k]);
      }
      k := k + 1;
    }
    assert forall k' :: 0 <= k' < |Required| ==> Required[k'] in raw;
    assert Required[0] in raw && Required[1] in raw && Required[2] in raw;
    assert Required[3] in raw && Required[4] in raw && Required[5] in raw;
    return None;
  }

  /** Levels 1..n of `side` hold, under their three keys, what the entries
      give for that level. */
  ghost predicate Written(cur: map<string, Value>, side: Side, entries: Value, arity: nat, n: int)
    requires arity >= 3
    requires forall j: nat :: j < n ==> !LevelSlot(entries, j, arity).Broken?
  {
    forall i: nat, f: Field | 1 <= i <= n ::
      LevelKey(side, i, f) in cur && cur[LevelKey(side, i, f)] == SlotValue(LevelSlot(entries, i - 1, arity), f)
  }

  /** `flat[f"{side}{n}_price"] = price` and the two lines after it. */
  function PutLevel(m: map<string, Value>, side: Side, n: nat, slot: Slot): map<string, Value>
    requires !slot.Broken? && (slot.Level? ==> |slot.items| >= 3)
  {
    m[LevelKey(side, n, Price) := SlotValue(slot, Price)]
     [LevelKey(side, n, Volume) := SlotValue(slot, Volume)]
     [LevelKey(side, n, Qty) := SlotValue(slot, Qty)]
  }

  /** Writing level n + 1 keeps levels 1..n as they were. */
  lemma PutLevelWritten(prev: map<string, Value>, side: Side, entries: Value, arity: nat, n: nat)
    requires arity >= 3
    requires forall j: nat :: j < n + 1 ==> !LevelSlot(entries, j, arity).Broken?
    requires Written(prev, side, entries, arity, n)
    ensures Written(PutLevel(prev, side, n + 1, LevelSlot(entries, n, arity)), side, entries, arity, n + 1)
  {
    var m := n + 1;
    var cur := PutLevel(prev, side, m, LevelSlot(entries, n, arity));
    forall i: nat, f: Field | 1 <= i <= m
      ensures LevelKey(side, i, f) in cur && cur[LevelKey(side, i, f)] == SlotValue(LevelSlot(entries, i - 1, arity), f)
    {
      if i < m {
        forall g: Field ensures LevelKey(side, i, f) != LevelKey(side, m, g) {
          if LevelKey(side, i, f) == LevelKey(side, m, g) { LevelKeyInjective(side, i, f, side, m, g); }
        }
      } else if f != Qty {
        if LevelKey(side, i, f) == LevelKey(side, i, Qty) { LevelKeyInjective(side, i, f, side, i, Qty); }
        if f == Price && LevelKey(side, i, f) == LevelKey(side, i, Volume) { LevelKeyInjective(side, i, f, side, i, Volume); }
      }
    }
  }

  /** `after` is `before` with levels 1..depth of `side` written in. */
  ghost predicate Filled(before: map<string, Value>, after: map<string, Value>, side: Side, entries: Value, depth: int, arity: nat)
    requires arity >= 3
  {
    && LevelsOk(entries, depth, arity)
    && after.Keys == before.Keys + SideKeys(side, depth)
    && (forall i: nat, f: Field | 1 <= i <= depth ::
          LevelKey(side, i, f) in after && after[LevelKey(side, i, f)] == SlotValue(LevelSlot(entries, i - 1, arity), f))
    && forall k :: k in before && k !in SideKeys(side, depth) ==> after[k] == before[k]
  }

  /** The flat record once both sides are written and "Bid"/"Ask" popped:
      the seeded fields other than Bid/Ask, then the level keys of both sides. */
  lemma FlattenBoth(flat: map<string, Value>, afterBid: map<string, Value>, afterAsk: map<string, Value>,
                    bids: Value, asks: Value, depth: int, arity: nat)
    requires arity >= 3
    requires flat.Keys <= RecordFields && "Bid" in flat && "Ask" in flat
    requires Filled(flat, afterBid, Bid, bids, depth, arity)
    requires Filled(afterBid, afterAsk, Ask, asks, depth, arity)
    ensures (afterAsk - {"Bid", "Ask"}).Keys == (flat.Keys - {"Bid", "Ask"}) + SideKeys(Bid, depth) + SideKeys(Ask, depth)
    ensures forall k :: k in flat && k !in {"Bid", "Ask"} ==> (afterAsk - {"Bid", "Ask"})[k] == flat[k]
    ensures forall i: nat, f: Field | 1 <= i <= depth ::
              && LevelKey(Bid, i, f) in afterAsk - {"Bid", "Ask"}
              && (afterAsk - {"Bid", "Ask"})[LevelKey(Bid, i, f)] == SlotValue(LevelSlot(bids, i - 1, arity), f)
              && LevelKey(Ask, i, f) in afterAsk - {"Bid", "Ask"}
              && (afterAsk - {"Bid", "Ask"})[LevelKey(Ask, i, f)] == SlotValue(LevelSlot(asks, i - 1, arity), f)
  {
    RecordFieldsNotLevels(Bid, depth);
    RecordFieldsNotLevels(Ask, depth);
    SideKeysDisjoint(depth);
    FlattenKeys(flat.Keys, afterBid.Keys, afterAsk.Keys, depth);
    FlattenFields(flat, afterBid, afterAsk, depth);
    FlattenLevels(afterBid, afterAsk, bids, asks, depth, arity);
  }

  lemma FlattenFields(flat: map<string, Value>, afterBid: map<string, Value>, afterAsk: map<string, Value>, depth: int)
    requires flat.Keys <= RecordFields
    requires RecordFields !! SideKeys(Bid, depth) && RecordFields !! SideKeys(Ask, depth)
    requires afterBid.Keys == flat.Keys + SideKeys(Bid, depth)
    requires forall k :: k in flat && k !in SideKeys(Bid, depth) ==> afterBid[k] == flat[k]
    requires afterAsk.Keys == afterBid.Keys + SideKeys(Ask, depth)
    requires forall k :: k in afterBid && k !in SideKeys(Ask, depth) ==> afterAsk[k] == afterBid[k]
    ensures forall k :: k in flat && k !in {"Bid", "Ask"} ==> (afterAsk - {"Bid", "Ask"})[k] == flat[k]
  {
    forall k | k in flat && k !in {"Bid", "Ask"} ensures (afterAsk - {"Bid", "Ask"})[k] == flat[k] {
      assert k in RecordFields;
    }
  }

  lemma FlattenKeys(flat: set<string>, afterBid: set<string>, afterAsk: set<string>, depth: int)
    requires flat <= RecordFields
    requires RecordFields !! SideKeys(Bid, depth) && RecordFields !! SideKeys(Ask, depth)
    requires afterBid == flat + SideKeys(Bid, depth)
    requires afterAsk == afterBid + SideKeys(Ask, depth)
    ensures afterAsk - {"Bid", "Ask"} == (flat - {"Bid", "Ask"}) + SideKeys(Bid, depth) + SideKeys(Ask, depth)
  {
    assert {"Bid", "Ask"} <= RecordFields;
  }

  lemma FlattenLevels(afterBid: map<string, Value>, afterAsk: map<string, Value>,
                      bids: Value, asks: Value, depth: int, arity: nat)
    requires arity >= 3
    requires SideKeys(Bid, depth) !! SideKeys(Ask, depth)
    requires LevelsOk(bids, depth, arity)
    requires forall i: nat, f: Field | 1 <= i <= depth ::
               LevelKey(Bid, i, f) in afterBid && afterBid[LevelKey(Bid, i, f)] == SlotValue(LevelSlot(bids, i - 1, arity), f)
    requires Filled(afterBid, afterAsk, Ask, asks, depth, arity)
    ensures forall i: nat, f: Field | 1 <= i <= depth ::
              && LevelKey(Bid, i, f) in afterAsk - {"Bid", "Ask"}
              && (afterAsk - {"Bid", "Ask"})[LevelKey(Bid, i, f)] == SlotValue(LevelSlot(bids, i - 1, arity), f)
              && LevelKey(Ask, i, f) in afterAsk - {"Bid", "Ask"}
              && (afterAsk - {"Bid", "Ask"})[LevelKey(Ask, i, f)] == SlotValue(LevelSlot(asks, i - 1, arity), f)
  {
    forall i: nat, f: Field | 1 <= i <= depth
      ensures LevelKey(Bid, i, f) in afterAsk - {"Bid", "Ask"}
      ensures (afterAsk - {"Bid", "Ask"})[LevelKey(Bid, i, f)] == SlotValue(LevelSlot(bids, i - 1, arity), f)
      ensures LevelKey(Ask, i, f) in afterAsk - {"Bid", "Ask"}
      ensures (afterAsk - {"Bid", "Ask"})[LevelKey(Ask, i, f)] == SlotValue(LevelSlot(asks, i - 1, arity), f)
    {
      assert LevelKey(Bid, i, f) in SideKeys(Bid, depth);
      assert LevelKey(Ask, i, f) in SideKeys(Ask, depth);
      LevelKeyNotRecordField(Bid, i, f);
      LevelKeyNotRecordField(Ask, i, f);
    }
  }

  /** What the side loop has done once it has passed level n: no broken
      level so far, the keys of levels 1..n added, their values written, and
      every other key of `flat` untouched. */
  ghost predicate Progress(flat: map<string, Value>, cur: map<string, Value>, side: Side, entries: Value, arity: nat, n: int)
    requires arity >= 3
  {
    && (forall j: nat :: j < n ==> !LevelSlot(entries, j, arity).Broken?)
    && cur.Keys == flat.Keys + SideKeys(side, n)
    && Written(cur, side, entries, arity, n)
    && forall k :: k in flat && k !in SideKeys(side, n) ==> cur[k] == flat[k]
  }

  /** Nothing is written before level 1. */
  lemma ProgressStart(flat: map<string, Value>, side: Side, entries: Value, arity: nat)
    requires arity >= 3
    ensures Progress(flat, flat, side, entries, arity, 0)
  {
    SideKeysNone(side, 0);
  }

  /** Writing level n + 1 adds exactly its three keys and leaves every other
      key of `flat` alone. */
  lemma PutLevelFrame(flat: map<string, Value>, cur: map<string, Value>, side: Side, n: nat, slot: Slot)
    requires !slot.Broken? && (slot.Level? ==> |slot.items| >= 3)
    requires cur.Keys == flat.Keys + SideKeys(side, n)
    requires forall k :: k in flat && k !in SideKeys(side, n) ==> cur[k] == flat[k]
    ensures PutLevel(cur, side, n + 1, slot).Keys == flat.Keys + SideKeys(side, n + 1)
    ensures forall k :: k in flat && k !in SideKeys(side, n + 1) ==> PutLevel(cur, side, n + 1, slot)[k] == flat[k]
  {
    var next := PutLevel(cur, side, n + 1, slot);
    var added := {LevelKey(side, n + 1, Price), LevelKey(side, n + 1, Volume), LevelKey(side, n + 1, Qty)};
    SideKeysStep(side, n + 1);
    assert next.Keys == cur.Keys + added;
    forall k | k in flat && k !in SideKeys(side, n + 1) ensures next[k] == flat[k] {
      assert k !in added && k !in SideKeys(side, n);
    }
  }

  /** Writing level n + 1, when its entry unpacks, extends the progress by one level. */
  lemma ProgressStep(flat: map<string, Value>, cur: map<string, Value>, side: Side, entries: Value, arity: nat, n: nat)
    requires arity >= 3
    requires Progress(flat, cur, side, entries, arity, n)
    requires !LevelSlot(entries, n, arity).Broken?
    ensures Progress(flat, PutLevel(cur, side, n + 1, LevelSlot(entries, n, arity)), side, entries, arity, n + 1)
  {
    PutLevelFrame(flat, cur, side, n, LevelSlot(entries, n, arity));
    assert forall j: nat :: j < n + 1 ==> !LevelSlot(entries, j, arity).Broken?;
    PutLevelWritten(cur, side, entries, arity, n);
  }

  /** What the loop has done once it has passed level max(depth, 0). */
  lemma FilledAtEnd(flat: map<string, Value>, cur: map<string, Value>, side: Side, entries: Value, depth: int, arity: nat)
    requires arity >= 3
    requires Progress(flat, cur, side, entries, arity, Max(depth, 0))
    ensures LevelsOk(entries, depth, arity) && Filled(flat, cur, side, entries, depth, arity)
  {
    if depth < 0 {
      SideKeysNone(side, depth);
      SideKeysNone(side, 0);
    }
  }

  /** The side loop from level done + 1 on, as a function: writes each
      level in turn, or stops at the first entry that does not unpack. */
  function FillFrom(cur: map<string, Value>, side: Side, entries: Value, depth: int, arity: nat, done: nat): Result<map<string, Value>, nat>
    requires arity >= 3
    decreases depth - done
  {
    if depth <= done then Ok(cur)
    else
      var slot := LevelSlot(entries, done, arity);
      if slot.Broken? then Err(done + 1)
      else FillFrom(PutLevel(cur, side, done + 1, slot), side, entries, depth, arity, done + 1)
  }

  /** Carried on from level done + 1, with levels 1..done unpacking, the side
      loop succeeds exactly when no level in 1..depth fails to unpack, and
      otherwise reports the first that does. */
  lemma {:induction false} FillFromOutcome(cur: map<string, Value>, side: Side, entries: Value, depth: int, arity: nat, done: nat)
    requires arity >= 3 && done <= Max(depth, 0)
    requires forall j: nat :: j < done ==> !LevelSlot(entries, j, arity).Broken?
    ensures FillFrom(cur, side, entries, depth, arity, done).Ok? <==> LevelsOk(entries, depth, arity)
    ensures FillFrom(cur, side, entries, depth, arity, done).Err? ==>
              FirstBroken(entries, depth, arity, FillFrom(cur, side, entries, depth, arity, done).error)
    decreases depth - done
  {
    if depth <= done {
    } else if LevelSlot(entries, done, arity).Broken? {
    } else {
      FillFromOutcome(PutLevel(cur, side, done + 1, LevelSlot(entries, done, arity)), side, entries, depth, arity, done + 1);
    }
  }

  /** Carried on from any point the loop can reach, a successful side loop
      leaves every level written and every other key alone. */
  lemma {:induction false} FillFromFilled(flat: map<string, Value>, cur: map<string, Value>, side: Side, entries: Value,
                                          depth: int, arity: nat, done: nat)
    requires arity >= 3 && done <= Max(depth, 0)
    requires Progress(flat, cur, side, entries, arity, done)
    ensures FillFrom(cur, side, entries, depth, arity, done).Ok? ==>
              Filled(flat, FillFrom(cur, side, entries, depth, arity, done).value, side, entries, depth, arity)
    decreases depth - done
  {
    if depth <= done {
      FilledAtEnd(flat, cur, side, entries, depth, arity);
    } else if !LevelSlot(entries, done, arity).Broken? {
      ProgressStep(flat, cur, side, entries, arity, done);
      FillFromFilled(flat, PutLevel(cur, side, done + 1, LevelSlot(entries, done, arity)), side, entries, depth, arity, done + 1);
    }
  }

  /** What the side loop promises: it succeeds exactly when every level in
      1..depth unpacks, reports the first that does not, and on success has
      written every level into `flat` and left its other keys alone. */
  lemma FillSpec(flat: map<string, Value>, side: Side, entries: Value, depth: int, arity: nat)
    requires arity >= 3
    ensures FillFrom(flat, side, entries, depth, arity, 0).Ok? <==> LevelsOk(entries, depth, arity)
    ensures FillFrom(flat, side, entries, depth, arity, 0).Err? ==>
              FirstBroken(entries, depth, arity, FillFrom(flat, side, entries, depth, arity, 0).error)
    ensures FillFrom(flat, side, entries, depth, arity, 0).Ok? ==>
              Filled(flat, FillFrom(flat, side, entries, depth, arity, 0).value, side, entries, depth, arity)
  {
    FillFromOutcome(flat, side, entries, depth, arity, 0);
    ProgressStart(flat, side, entries, arity);
    FillFromFilled(flat, flat, side, entries, depth, arity, 0);
  }

  /** The inner loop `for i in range(1, depth + 1)` for one side: writes the
      three keys of every level into `flat`, or stops at the first level
      whose entry is not a well-formed tuple (reported 1-based). */
  method FillSide(flat: map<string, Value>, side: Side, entries: Value, depth: int, arity: nat)
    returns (r: Result<map<string, Value>, nat>)
    requires arity >= 3
    ensures r == FillFrom(flat, side, entries, depth, arity, 0)
  {
    var cur := flat;
    var done: nat := 0;  // levels 1..done are written; the loop's `i` is done + 1
    while done < depth
      invariant FillFrom(cur, side, entries, depth, arity, done) == FillFrom(flat, side, entries, depth, arity, 0)
    {
      var slot := LevelSlot(entries, done, arity);  // entries[i - 1]
      if slot.Broken? {
        return Err(done + 1);
      }
      cur := PutLevel(cur, side, done + 1, slot);
      done := done + 1;
    }
    return Ok(cur);
  }
}
