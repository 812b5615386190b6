/** `CleanModel._clean_all`, the pre-validator every feed model inherits
    (feedhandler/src/models/clean_model.py, and the identical copy in
    models.py): every raw value is normalised before pydantic validates it. */
module CleanModel {
  import opened Values

  /** The declared type of a field once `Optional[T]` is unwrapped to `T`. */
  datatype FieldType = FloatType | IntType | BoolType | DatetimeType | OtherType

  /** `float(raw)`, `int(raw)` and `datetime.fromisoformat(raw)`: None where
      the conversion raises. They live in the Python runtime, so the model
      takes them as given functions. `bool(raw)` never raises and is truthiness. */
  datatype Conversions = Conversions(
    toFloat: Value -> Option<real>,
    toInt: Value -> Option<int>,
    fromIso: Value -> Option<int>)

  /** `raw in (None, '', 'N/A')`. */
  predicate IsPlaceholder(v: Value)
  {
    v == Null || v == Str("") || v == Str("N/A")
  }

  /** What `_clean_all` stores under `name` for the raw value `raw`, given the
      model's declared fields. */
  function CleanValue(fields: map<string, FieldType>, conv: Conversions, name: string, raw: Value): (r: Value)
    // placeholders first, whatever the field
    ensures IsPlaceholder(raw) ==> r == Null
    // undeclared keys and declared fields of any other type keep their value
    ensures !IsPlaceholder(raw) && (name !in fields || fields[name] == OtherType) ==> r == raw
    // a declared primitive field holds a value of its type, or None when the conversion raised
    ensures !IsPlaceholder(raw) && name in fields && fields[name] == FloatType ==>
              (r == Null <==> conv.toFloat(raw) == None) && (r != Null ==> r == Float(conv.toFloat(raw).value))
    ensures !IsPlaceholder(raw) && name in fields && fields[name] == IntType ==>
              (r == Null <==> conv.toInt(raw) == None) && (r != Null ==> r == Int(conv.toInt(raw).value))
    ensures !IsPlaceholder(raw) && name in fields && fields[name] == DatetimeType ==>
              (r == Null <==> conv.fromIso(raw) == None) && (r != Null ==> r == Time(conv.fromIso(raw).value))
    ensures !IsPlaceholder(raw) && name in fields && fields[name] == BoolType ==> r == Bool(Truthy(raw))
    // no '' or 'N/A' survives cleaning
    ensures r == Null || !IsPlaceholder(r)
  {
    if IsPlaceholder(raw) then Null
    else if name !in fields then raw
    else
      match fields[name]
      case FloatType => (match conv.toFloat(raw) case Some(x) => Float(x) case None => Null)
      case IntType => (match conv.toInt(raw) case Some(n) => Int(n) case None => Null)
      case BoolType => Bool(Truthy(raw))
      case DatetimeType => (match conv.fromIso(raw) case Some(t) => Time(t) case None => Null)
      case OtherType => raw
  }

  /** The dict `_clean_all` returns. */
  function Cleaned(fields: map<string, FieldType>, conv: Conversions, values: map<string, Value>): (cleaned: map<string, Value>)
    ensures cleaned.Keys == values.Keys
  {
    map name | name in values :: CleanValue(fields, conv, name, values[name])
  }

  /** `_clean_all`: one pass over the raw dict, writing each cleaned value
      into a new dict under the same key. */
  method CleanAll(fields: map<string, FieldType>, conv: Conversions, values: map<string, Value>)
    returns (cleaned: map<string, Value>)
    ensures cleaned == Cleaned(fields, conv, values)
  {
    cleaned := map[];
    var rest := values.Keys;
    while rest != {}
      invariant rest <= values.Keys
      invariant cleaned.Keys == values.Keys - rest
      invariant forall name :: name in cleaned ==> cleaned[name] == CleanValue(fields, conv, name, values[name])
      decreases rest
    {
      var name :| name in rest;
      var raw := values[name];
      rest := rest - {name};
      if IsPlaceholder(raw) {
        cleaned := cleaned[name := Null];
        continue;
      }
      if name !in fields {
        cleaned := cleaned[name := raw];
        continue;
      }
      var expected := fields[name];
      match expected {
        case FloatType =>
          var x := conv.toFloat(raw);
          cleaned := cleaned[name := if x.Some? then Float(x.value) else Null];
        case IntType =>
          var n := conv.toInt(raw);
          cleaned := cleaned[name := if n.Some? then Int(n.value) else Null];
        case BoolType =>
          cleaned := cleaned[name := Bool(Truthy(raw))];
        case DatetimeType =>
          var t := conv.fromIso(raw);
          cleaned := cleaned[name := if t.Some? then Time(t.value) else Null];
        case OtherType =>
          cleaned := cleaned[name := raw];
      }
    }
  }

  /** `float` and `int` give back a value already of their type. */
  ghost predicate KeepsOwnType(conv: Conversions)
  {
    && (forall x: real :: conv.toFloat(Float(x)) == Some(x))
    && (forall n: int :: conv.toInt(Int(n)) == Some(n))
  }

  /** Cleaning a record that was already cleaned changes nothing, as long as
      no field is a datetime: `datetime.fromisoformat` rejects a datetime, so
      a second pass would turn those fields into None. */
  lemma {:induction false} CleanedIdempotent(fields: map<string, FieldType>, conv: Conversions, values: map<string, Value>)
    requires forall name :: name in fields ==> fields[name] != DatetimeType
    requires KeepsOwnType(conv)
    ensures Cleaned(fields, conv, Cleaned(fields, conv, values)) == Cleaned(fields, conv, values)
  {
    var once := Cleaned(fields, conv, values);
    forall name | name in once
      ensures CleanValue(fields, conv, name, once[name]) == once[name]
    {
      CleanValueIdempotent(fields, conv, name, values[name]);
    }
  }

  lemma CleanValueIdempotent(fields: map<string, FieldType>, conv: Conversions, name: string, raw: Value)
    requires name in fields ==> fields[name] != DatetimeType
    requires KeepsOwnType(conv)
    ensures CleanValue(fields, conv, name, CleanValue(fields, conv, name, raw)) == CleanValue(fields, conv, name, raw)
  {
    var once := CleanValue(fields, conv, name, raw);
    if !IsPlaceholder(raw) && name in fields {
      match fields[name]
      case FloatType =>
        if once != Null { assert conv.toFloat(Float(once.f)) == Some(once.f); }
      case IntType =>
        if once != Null { assert conv.toInt(Int(once.i)) == Some(once.i); }
      case _ =>
    }
  }
}
