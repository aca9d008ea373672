/**
 * The earlier crate's keyspace: a map from keys to objects of eight kinds, the
 * lookup that inserts a default for a missing key, the typed accessors built on
 * it, object equality, and the byte helpers its commands use.
 *
 * Floats are kept as their 64-bit patterns; how two of them compare is IEEE
 * arithmetic and comes in as a parameter of the equality.
 */
module LegacyState {
  import opened Bytes
  import opened Wrappers
  import opened Utf8

  datatype Object =
    | Boolean(b: bool)
    | ByteString(bytes: Bytes)
    | Float(bits: uint64)
    | Integer(i: int64)
    | List(items: seq<Bytes>)
    | Map(entries: map<Bytes, Bytes>)
    | Set(elems: set<Bytes>)
    | Str(s: Utf8String)

  datatype ObjectKind = BooleanKind | BytesKind | FloatKind | IntegerKind | ListKind | MapKind | SetKind | StrKind

  function KindOf(o: Object): ObjectKind {
    match o
    case Boolean(_) => BooleanKind
    case ByteString(_) => BytesKind
    case Float(_) => FloatKind
    case Integer(_) => IntegerKind
    case List(_) => ListKind
    case Map(_) => MapKind
    case Set(_) => SetKind
    case Str(_) => StrKind
  }

  /** The errors the keyspace and the helpers report. */
  datatype DispatchError = KeyWrongType | BooleanValueInvalid | IntegerTooSmall

  /** `Object::boolean`, `Object::bytes` and the rest: false, zero, or nothing. */
  function Default(k: ObjectKind): (o: Object)
    ensures KindOf(o) == k
    ensures o.Boolean? ==> !o.b
    ensures o.ByteString? ==> |o.bytes| == 0
    ensures o.Float? ==> o.bits == 0
    ensures o.Integer? ==> o.i == 0
    ensures o.List? ==> |o.items| == 0
    ensures o.Map? ==> |o.entries| == 0
    ensures o.Set? ==> |o.elems| == 0
    ensures o.Str? ==> |o.s| == 0
  {
    match k
    case BooleanKind => Boolean(false)
    case BytesKind => ByteString([])
    case FloatKind => Float(0)
    case IntegerKind => Integer(0)
    case ListKind => List([])
    case MapKind => Map(map[])
    case SetKind => Set({})
    case StrKind => Str([])
  }

  /**
   * `PartialEq for Object`: objects of the same kind compare their payloads;
   * objects of different kinds are never equal. Two floats compare as
   * `floatEq` says.
   */
  function Equal(a: Object, b: Object, floatEq: (uint64, uint64) -> bool): (r: bool)
    ensures KindOf(a) != KindOf(b) ==> !r
    ensures KindOf(a) == KindOf(b) && !a.Float? ==> (r <==> a == b)
    ensures a.Float? && b.Float? ==> (r <==> floatEq(a.bits, b.bits))
  {
    match (a, b)
    case (Boolean(x), Boolean(y)) => x == y
    case (Boolean(_), _) => false
    case (_, Boolean(_)) => false
    case (ByteString(x), ByteString(y)) => x == y
    case (ByteString(_), _) => false
    case (_, ByteString(_)) => false
    case (Float(x), Float(y)) => floatEq(x, y)
    case (Float(_), _) => false
    case (_, Float(_)) => false
    case (Integer(x), Integer(y)) => x == y
    case (Integer(_), _) => false
    case (_, Integer(_)) => false
    case (List(x), List(y)) => x == y
    case (List(_), _) => false
    case (_, List(_)) => false
    case (Map(x), Map(y)) => x == y
    case (Map(_), _) => false
    case (_, Map(_)) => false
    case (Set(x), Set(y)) => x == y
    case (Set(_), _) => false
    case (_, Set(_)) => false
    case (Str(x), Str(y)) => x == y
  }

  /** Equality is symmetric whenever the float comparison is, and always between objects that are not floats. */
  lemma EqualSymmetric(a: Object, b: Object, floatEq: (uint64, uint64) -> bool)
    requires !a.Float? || !b.Float? || floatEq(a.bits, b.bits) == floatEq(b.bits, a.bits)
    ensures Equal(a, b, floatEq) == Equal(b, a, floatEq)
  {
  }

  /** Apart from floats, every object equals itself. */
  lemma EqualReflexive(a: Object, floatEq: (uint64, uint64) -> bool)
    requires !a.Float?
    ensures Equal(a, a, floatEq)
  {
  }

  /** Two defaults are equal exactly when they are of the same kind, whatever the float comparison. */
  lemma DefaultsEqual(k: ObjectKind, l: ObjectKind, floatEq: (uint64, uint64) -> bool)
    requires k != FloatKind || floatEq(0, 0)
    ensures Equal(Default(k), Default(l), floatEq) <==> k == l
  {
  }

  // The keyspace.

  type State = map<Bytes, Object>

  /** `b"__imms__:"`, the prefix of keys the crate keeps for itself. */
  const InternalPrefix: Bytes := [95, 95, 105, 109, 109, 115, 95, 95, 58]

  predicate IsInternal(key: Bytes) {
    |key| >= |InternalPrefix| && key[..|InternalPrefix|] == InternalPrefix
  }

  /**
   * `State::key`: the object under the key, after inserting `initial` if there
   * was none. A key with the internal prefix makes it panic, so callers must
   * not pass one.
   */
  function Key(s: State, key: Bytes, initial: Object): (r: (State, Object))
    requires !IsInternal(key)
    ensures key in r.0 && r.0[key] == r.1
    ensures key in s ==> r.0 == s && r.1 == s[key]
    ensures key !in s ==> r.1 == initial && r.0.Keys == s.Keys + {key}
    ensures forall k :: k in s && k != key ==> k in r.0 && r.0[k] == s[k]
  {
    if key in s then (s, s[key]) else (s[key := initial], initial)
  }

  /**
   * The typed accessors `bool`, `int`, `bytes`, `float`, `list`, `map`, `set`
   * and `str`: the object under the key, inserting the kind's default when the
   * key is missing, if it is of that kind; otherwise `KeyWrongType`.
   */
  function Access(s: State, key: Bytes, kind: ObjectKind): (r: (State, Result<Object, DispatchError>))
    requires !IsInternal(key)
    ensures r.1.Ok? <==> key !in s || KindOf(s[key]) == kind
    ensures r.1.Ok? ==> KindOf(r.1.value) == kind && key in r.0 && r.0[key] == r.1.value
    ensures r.1.Err? ==> r.1.error == KeyWrongType && r.0 == s
    ensures key in s ==> r.0 == s
    ensures key !in s ==> r.0 == s[key := Default(kind)] && r.1 == Ok(Default(kind))
  {
    var (next, o) := Key(s, key, Default(kind));
    if KindOf(o) == kind then (next, Ok(o)) else (next, Err(KeyWrongType))
  }

  /**
   * An access that succeeded leaves the key holding an object of its kind, so
   * the same access again changes nothing and gives the same object.
   */
  lemma AccessAgain(s: State, key: Bytes, kind: ObjectKind)
    requires !IsInternal(key) && Access(s, key, kind).1.Ok?
    ensures var (next, r) := Access(s, key, kind); Access(next, key, kind) == (next, r)
  {
  }

  /** An access to one key leaves every other key as it was. */
  lemma AccessFrames(s: State, key: Bytes, kind: ObjectKind, other: Bytes)
    requires !IsInternal(key) && other != key
    ensures other in Access(s, key, kind).0 <==> other in s
    ensures other in s ==> Access(s, key, kind).0[other] == s[other]
  {
  }

  /** Once a key holds an object of one kind, the accessor of any other kind fails on it. */
  lemma AccessOtherKindFails(s: State, key: Bytes, kind: ObjectKind, other: ObjectKind)
    requires !IsInternal(key) && other != kind
    ensures var next := Access(s, key, kind);
      next.1.Ok? ==> Access(next.0, key, other) == (next.0, Err(KeyWrongType))
  {
  }

  // The byte helpers.

  /** `into_boolean`: 1 is true, 0 is false, anything else is refused. */
  function IntoBoolean(byte: uint8): (r: Result<bool, DispatchError>)
    ensures r == Ok(true) <==> byte == 1
    ensures r == Ok(false) <==> byte == 0
    ensures r.Err? <==> byte >= 2
    ensures r.Err? ==> r.error == BooleanValueInvalid
  {
    if byte == 1 then Ok(true)
    else if byte == 0 then Ok(false)
    else Err(BooleanValueInvalid)
  }

  /** The byte a boolean is written as. */
  function BooleanByte(b: bool): uint8 {
    if b then 1 else 0
  }

  /** Reading back a boolean's byte gives the boolean; every accepted byte is one of them. */
  lemma BooleanRoundTrip(b: bool, byte: uint8)
    ensures IntoBoolean(BooleanByte(b)) == Ok(b)
    ensures IntoBoolean(byte).Ok? ==> BooleanByte(IntoBoolean(byte).value) == byte
  {
  }

  /** `into_integer`: exactly eight bytes, big-endian two's complement; any other length is too small. */
  function IntoInteger(bytes: Bytes): (r: Result<int64, DispatchError>)
    ensures r.Ok? <==> |bytes| == 8
    ensures r.Err? ==> r.error == IntegerTooSmall
    ensures r.Ok? ==> I64BE(r.value) == bytes
  {
    if |bytes| == 8 then
      I64RoundTripBytes(bytes);
      Ok(I64FromBE(bytes))
    else Err(IntegerTooSmall)
  }

  /** An integer's eight bytes read back as that integer. */
  lemma IntegerRoundTrip(x: int64)
    ensures IntoInteger(I64BE(x)) == Ok(x)
  {
    I64RoundTrip(x);
  }

  /** A growable buffer: its items and the room it has allocated. */
  datatype Buffer<T> = Buffer(items: seq<T>, capacity: nat)

  predicate Valid<T>(v: Buffer<T>) {
    |v.items| <= v.capacity
  }

  /**
   * `reserve`: with room enough for `additional` more items nothing changes;
   * otherwise the allocator grows the buffer to `grown`, some size at least
   * that large, which the allocator chooses and the model takes as a parameter.
   */
  function Reserve<T>(v: Buffer<T>, additional: nat, grown: nat): (r: Buffer<T>)
    requires Valid(v) && grown >= |v.items| + additional
    ensures Valid(r) && r.items == v.items
    ensures r.capacity >= |v.items| + additional && r.capacity >= v.capacity
    ensures v.capacity >= |v.items| + additional ==> r == v
  {
    if v.capacity - |v.items| >= additional then v else Buffer(v.items, grown)
  }

  /** Reserving again what was just reserved, or less, changes nothing. */
  lemma ReserveSettles<T>(v: Buffer<T>, additional: nat, grown: nat, less: nat, again: nat)
    requires Valid(v) && grown >= |v.items| + additional && less <= additional && again >= |v.items| + less
    ensures Reserve(Reserve(v, additional, grown), less, again) == Reserve(v, additional, grown)
  {
  }

  /**
   * The source's unit test, with the allocator growing an empty buffer to
   * exactly what was asked: 12 after reserving 12, still 12 after reserving 11.
   */
  lemma ReserveExample(empty: Buffer<uint8>)
    requires empty == Buffer([], 0)
    ensures Reserve(empty, 12, 12).capacity == 12
    ensures Reserve(Reserve(empty, 12, 12), 11, 12).capacity == 12
  {
  }
}
