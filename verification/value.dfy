/** The typed values stored under keys, and the tags (key types) that name their variants. */
module Values {
  import opened Bytes
  import opened Utf8
  import opened Wrappers

  datatype KeyType =
    | BytesType | BooleanType | FloatType | IntegerType
    | StringType | ListType | MapType | SetType

  /** The `#[repr(u8)]` discriminant of a key type. */
  function KeyTypeCode(k: KeyType): uint8 {
    match k
    case BytesType => 0
    case BooleanType => 1
    case FloatType => 2
    case IntegerType => 3
    case StringType => 4
    case ListType => 5
    case MapType => 6
    case SetType => 7
  }

  /** `KeyType::try_from(u8)`. */
  function KeyTypeTryFromU8(b: uint8): (r: Option<KeyType>)
    ensures r.Some? <==> b < 8
    ensures r.Some? ==> KeyTypeCode(r.value) == b
  {
    match b
    case 0 => Some(BytesType)
    case 1 => Some(BooleanType)
    case 2 => Some(FloatType)
    case 3 => Some(IntegerType)
    case 4 => Some(StringType)
    case 5 => Some(ListType)
    case 6 => Some(MapType)
    case 7 => Some(SetType)
    case _ => None
  }

  lemma KeyTypeRoundTrip(k: KeyType)
    ensures KeyTypeTryFromU8(KeyTypeCode(k)) == Some(k)
  {
  }

  /**
   * A stored value. Floats are kept as their raw 64-bit pattern: no arithmetic is
   * done on them here. Strings are kept as their UTF-8 bytes.
   */
  datatype Value =
    | BooleanValue(b: bool)
    | BytesValue(bytes: Bytes)
    | FloatValue(bits: uint64)
    | IntegerValue(i: int64)
    | ListValue(items: seq<Bytes>)
    | MapValue(entries: map<Bytes, Bytes>)
    | SetValue(elems: set<Bytes>)
    | StringValue(s: Utf8String)

  function Kind(v: Value): KeyType {
    match v
    case BooleanValue(_) => BooleanType
    case BytesValue(_) => BytesType
    case FloatValue(_) => FloatType
    case IntegerValue(_) => IntegerType
    case ListValue(_) => ListType
    case MapValue(_) => MapType
    case SetValue(_) => SetType
    case StringValue(_) => StringType
  }

  /**
   * The default constructor of each variant (`Value::boolean()`, `Value::bytes()`, ...):
   * false, zero, or an empty payload.
   */
  function Default(k: KeyType): (v: Value)
    ensures Kind(v) == k
    ensures v.BooleanValue? ==> !v.b
    ensures v.BytesValue? ==> v.bytes == []
    ensures v.FloatValue? ==> v.bits == 0
    ensures v.IntegerValue? ==> v.i == 0
    ensures v.ListValue? ==> v.items == []
    ensures v.MapValue? ==> v.entries == map[]
    ensures v.SetValue? ==> v.elems == {}
    ensures v.StringValue? ==> v.s == []
  {
    match k
    case BooleanType => BooleanValue(false)
    case BytesType => BytesValue([])
    case FloatType => FloatValue(0)
    case IntegerType => IntegerValue(0)
    case ListType => ListValue([])
    case MapType => MapValue(map[])
    case SetType => SetValue({})
    case StringType => StringValue([])
  }

  // The `as_*_ref` accessors: the payload when the value is of that variant.

  function AsBoolean(v: Value): (r: Option<bool>)
    ensures r.Some? <==> Kind(v) == BooleanType
    ensures r.Some? ==> v == BooleanValue(r.value)
  {
    if v.BooleanValue? then Some(v.b) else None
  }

  function AsBytes(v: Value): (r: Option<Bytes>)
    ensures r.Some? <==> Kind(v) == BytesType
    ensures r.Some? ==> v == BytesValue(r.value)
  {
    if v.BytesValue? then Some(v.bytes) else None
  }

  function AsFloat(v: Value): (r: Option<uint64>)
    ensures r.Some? <==> Kind(v) == FloatType
    ensures r.Some? ==> v == FloatValue(r.value)
  {
    if v.FloatValue? then Some(v.bits) else None
  }

  function AsInteger(v: Value): (r: Option<int64>)
    ensures r.Some? <==> Kind(v) == IntegerType
    ensures r.Some? ==> v == IntegerValue(r.value)
  {
    if v.IntegerValue? then Some(v.i) else None
  }

  function AsList(v: Value): (r: Option<seq<Bytes>>)
    ensures r.Some? <==> Kind(v) == ListType
    ensures r.Some? ==> v == ListValue(r.value)
  {
    if v.ListValue? then Some(v.items) else None
  }

  function AsMap(v: Value): (r: Option<map<Bytes, Bytes>>)
    ensures r.Some? <==> Kind(v) == MapType
    ensures r.Some? ==> v == MapValue(r.value)
  {
    if v.MapValue? then Some(v.entries) else None
  }

  function AsSet(v: Value): (r: Option<set<Bytes>>)
    ensures r.Some? <==> Kind(v) == SetType
    ensures r.Some? ==> v == SetValue(r.value)
  {
    if v.SetValue? then Some(v.elems) else None
  }

  function AsString(v: Value): (r: Option<Utf8String>)
    ensures r.Some? <==> Kind(v) == StringType
    ensures r.Some? ==> v == StringValue(r.value)
  {
    if v.StringValue? then Some(v.s) else None
  }

  // The `is_*` predicates, each true exactly for the values of its own kind.

  predicate IsBoolean(v: Value)
    ensures IsBoolean(v) <==> Kind(v) == BooleanType
  {
    v.BooleanValue?
  }

  predicate IsBytes(v: Value)
    ensures IsBytes(v) <==> Kind(v) == BytesType
  {
    v.BytesValue?
  }

  predicate IsFloat(v: Value)
    ensures IsFloat(v) <==> Kind(v) == FloatType
  {
    v.FloatValue?
  }

  predicate IsInteger(v: Value)
    ensures IsInteger(v) <==> Kind(v) == IntegerType
  {
    v.IntegerValue?
  }

  predicate IsList(v: Value)
    ensures IsList(v) <==> Kind(v) == ListType
  {
    v.ListValue?
  }

  predicate IsMap(v: Value)
    ensures IsMap(v) <==> Kind(v) == MapType
  {
    v.MapValue?
  }

  predicate IsSet(v: Value)
    ensures IsSet(v) <==> Kind(v) == SetType
  {
    v.SetValue?
  }

  /** `is_string` as the source has it: it matches the Boolean variant. */
  predicate IsStringAsWritten(v: Value)
    ensures IsStringAsWritten(v) <==> Kind(v) == BooleanType
  {
    v.BooleanValue?
  }

  /** `is_string` as its name and its seven siblings intend. */
  predicate IsString(v: Value)
    ensures IsString(v) <==> Kind(v) == StringType
  {
    v.StringValue?
  }

  /** The as-written `is_string` answers false for a string and true for a boolean. */
  lemma IsStringAsWrittenMisreports()
    ensures !IsStringAsWritten(Default(StringType))
    ensures IsStringAsWritten(Default(BooleanType))
    ensures IsString(Default(StringType)) && !IsString(Default(BooleanType))
  {
  }

  /** The as-written predicate never holds of a string, and the two disagree on every string and every Boolean. */
  lemma IsStringAsWrittenIsBoolean(v: Value)
    ensures IsStringAsWritten(v) ==> !IsString(v)
    ensures IsStringAsWritten(v) != IsString(v) <==> Kind(v) in {BooleanType, StringType}
  {
  }

  /** Two values of different kinds are never equal. */
  lemma KindSeparates(a: Value, b: Value)
    requires Kind(a) != Kind(b)
    ensures a != b
  {
  }
}
