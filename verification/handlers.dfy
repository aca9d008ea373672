/**
 * The command handlers. Each takes the keyspace and a parsed request and gives the
 * keyspace after the command together with the value it responds with, or the
 * error it fails with; the response bytes are that value's encoding
 * (`Responses.AsBytes`). The keyspace panics when a handler reaches it with a key
 * carrying the internal prefix, and nothing before the handlers keeps a client
 * from sending one: such a handler comes to `Panicked`, with the keyspace as the
 * panic left it.
 */
module Handlers {
  import opened Bytes
  import opened Wrappers
  import opened Utf8
  import opened Values
  import opened Errors
  import opened Keyspace
  import opened Enumerations
  import opened Requests

  /**
   * What a handler comes to: the keyspace after the command with its response
   * value or its error, or a panic with the keyspace as far as the handler had
   * changed it.
   */
  datatype Reply = Replied(state: State, response: Result<Value, DispatchError>) | Panicked(state: State)

  /** The arguments that are UTF-8, one after the other; the others are skipped. */
  function ValidParts(parts: seq<Bytes>): (r: Utf8String)
    decreases |parts|
  {
    if |parts| == 0 then []
    else
      var rest := ValidParts(parts[1..]);
      if ValidUtf8(parts[0]) then ConcatValid(parts[0], rest); parts[0] + rest else rest
  }

  // Set

  /**
   * The value a set of type `kind` stores: the argument after the key converted to
   * the type, or for the collections every argument after the key.
   */
  function Converted(req: Request, kind: KeyType): (r: Option<Value>)
    ensures r.Some? ==> Kind(r.value) == kind
    ensures kind in {ListType, MapType, SetType} ==> (r.Some? <==> ArgCount(req) > 0)
    ensures kind !in {ListType, MapType, SetType} && Arg(req, 1).None? ==> r.None?
    ensures Arg(req, 1).Some? ==> var arg := Arg(req, 1).value;
      (kind == BooleanType ==> (r.Some? <==> |arg| > 0) && (r.Some? ==> r.value.b == (arg[0] > 0))) &&
      (kind == BytesType ==> r == Some(BytesValue(arg))) &&
      (kind == IntegerType ==> (r.Some? <==> |arg| >= 8) && (r.Some? ==> r.value.i == I64FromBE(arg[..8]))) &&
      (kind == FloatType ==> (r.Some? <==> |arg| >= 8) && (r.Some? ==> r.value.bits == U64FromBE(arg[..8]))) &&
      (kind == StringType ==> (r.Some? <==> ValidUtf8(arg)) && (r.Some? ==> r.value.s == arg))
  {
    match kind
    case ListType =>
      (match Args(req, Included(1), Unbounded)
       case None => None
       case Some(args) => Some(ListValue(args)))
    case MapType =>
      (match TypedArgsMap(req)
       case None => None
       case Some(m) => Some(MapValue(m)))
    case SetType =>
      (match TypedArgsSet(req)
       case None => None
       case Some(elems) => Some(SetValue(elems)))
    case _ =>
      match Arg(req, 1)
      case None => None
      case Some(arg) =>
        match kind
        case BooleanType => (match ToBool(arg) case None => None case Some(b) => Some(BooleanValue(b)))
        case BytesType => Some(BytesValue(arg))
        case FloatType => (match ToFloatBits(arg) case None => None case Some(f) => Some(FloatValue(f)))
        case IntegerType => (match ToInteger(arg) case None => None case Some(i) => Some(IntegerValue(i)))
        case StringType => (match ToStr(arg) case None => None case Some(t) => Some(StringValue(t)))
        case _ => None
  }

  /** The type a set stores under: the request's key type, else the stored value's kind, else Bytes. */
  function SetKind(s: State, req: Request, key: Bytes): KeyType {
    if req.keyType.Some? then req.keyType.value else if key in s then Kind(s[key]) else BytesType
  }

  /**
   * A set with an internal key and a value argument panics unless the key type is
   * given and the argument does not convert to it.
   */
  predicate SetSafe(req: Request) {
    Requests.Key(req).Some? && Arg(req, 1).Some? && IsInternal(Requests.Key(req).value) ==>
      req.keyType.Some? && Converted(req, req.keyType.value).None?
  }

  /**
   * `Set::dispatch`: stores the converted arguments under the key, replacing whatever
   * value of whatever type was there, and responds with the stored value. A value
   * that does not convert leaves the keyspace as it was. An internal key panics
   * when the stored type is looked up, or, with the type given, once the key has
   * already been removed.
   */
  function Set(s: State, req: Request): (r: Reply)
    ensures r.Panicked? <==> !SetSafe(req)
    ensures r.Panicked? ==> r.state == if req.keyType.None? then s else s - {Requests.Key(req).value}
    ensures Requests.Key(req).None? ==> r == Replied(s, Err(KeyUnspecified))
    ensures Requests.Key(req).Some? && Arg(req, 1).None? ==> r == Replied(s, Err(ArgumentRetrieval))
    ensures r.Replied? && r.response.Err? ==> r.state == s && r.response.error in {KeyUnspecified, ArgumentRetrieval}
    ensures r.Replied? && Requests.Key(req).Some? && Arg(req, 1).Some? ==>
      var key := Requests.Key(req).value;
      var stored := Converted(req, SetKind(s, req, key));
      (r.response.Ok? <==> stored.Some?) &&
      (r.response.Ok? ==> r.response.value == stored.value && r.state == s[key := stored.value])
  {
    match Requests.Key(req)
    case None => Replied(s, Err(KeyUnspecified))
    case Some(key) =>
      if Arg(req, 1).None? then Replied(s, Err(ArgumentRetrieval))
      else if req.keyType.None? && IsInternal(key) then Panicked(s)
      else
        var (s1, kind) :=
          if req.keyType.Some? then (s, req.keyType.value)
          else var (t, v) := KeyOrInsertWith(s, key, Default(BytesType)); (t, Kind(v));
        assert kind == SetKind(s, req, key);
        match Converted(req, kind)
        case None => Replied(s1, Err(ArgumentRetrieval))
        case Some(v) =>
          var (s2, _) := Remove(s1, key);
          if IsInternal(key) then Panicked(s2)
          else
            var (s3, slot) := TypedKey(s2, key, kind);
            match slot
            case None => Replied(s3, Err(WrongType))
            case Some(_) =>
              assert s3[key := v] == s[key := v];
              Replied(s3[key := v], Ok(v))
  }

  // Append

  /** The type an append works on: the request's key type, else the stored value's kind, else Bytes. */
  function AppendKind(s: State, req: Request, key: Bytes): KeyType {
    if req.keyType.Some? then req.keyType.value else if key in s then Kind(s[key]) else BytesType
  }

  predicate Appendable(kind: KeyType) {
    kind in {BytesType, ListType, StringType}
  }

  /** An append with an internal key panics exactly when the type it works on is appendable. */
  predicate AppendSafe(s: State, req: Request) {
    Arg(req, 0).Some? && IsInternal(Arg(req, 0).value) ==> !Appendable(AppendKind(s, req, Arg(req, 0).value))
  }

  /**
   * `Append::dispatch`: extends the value under the key (created empty when absent)
   * with the arguments after the key: their bytes for Bytes, the arguments
   * themselves for a List, and only those that are UTF-8 for a String. It responds
   * with the whole new value. A request with a key always has arguments, so
   * ArgumentRetrieval never comes back. An internal key panics before anything
   * changes.
   */
  function Append(s: State, req: Request): (r: Reply)
    ensures r.Panicked? <==> !AppendSafe(s, req)
    ensures r.Panicked? ==> r.state == s
    ensures Arg(req, 0).None? ==> r == Replied(s, Err(KeyUnspecified))
    ensures r.Replied? ==> r.response != Err(ArgumentRetrieval)
    ensures r.Replied? && r.response.Err? ==> r.state == s
    ensures r.Replied? && Arg(req, 0).Some? ==>
      var key := Arg(req, 0).value;
      var kind := AppendKind(s, req, key);
      var args := Collect(req, 1, ArgCount(req));
      var before := if key in s then s[key] else Default(kind);
      var out := r.response;
      (out.Ok? <==> Appendable(kind) && Kind(before) == kind) &&
      (out.Err? ==> out.error == KeyTypeDifferent) &&
      (out.Ok? ==> r.state == s[key := out.value] && Kind(out.value) == kind) &&
      (out.Ok? && kind == BytesType ==> out.value.bytes == before.bytes + Concat(args)) &&
      (out.Ok? && kind == ListType ==> out.value.items == before.items + args) &&
      (out.Ok? && kind == StringType ==> out.value.s == before.s + ValidParts(args))
  {
    match Arg(req, 0)
    case None => Replied(s, Err(KeyUnspecified))
    case Some(key) =>
      match Args(req, Included(1), Unbounded)
      case None => Replied(s, Err(ArgumentRetrieval))
      case Some(args) =>
        var kind := AppendKind(s, req, key);
        if !Appendable(kind) then Replied(s, Err(KeyTypeDifferent))
        else if IsInternal(key) then Panicked(s)
        else
          var (s1, v) := KeyOrInsertWith(s, key, Default(kind));
          match Grown(kind, v, args)
          case None => Replied(s1, Err(KeyTypeDifferent))
          case Some(grown) => Replied(s1[key := grown], Ok(grown))
  }

  /**
   * One arm of `Append::dispatch` once the value is in hand: a value of the kind
   * appended to grows by the arguments, and a value of another kind is left alone.
   */
  function Grown(kind: KeyType, before: Value, args: seq<Bytes>): (r: Option<Value>)
    requires Appendable(kind)
    ensures r.Some? <==> Kind(before) == kind
    ensures r.Some? ==> Kind(r.value) == kind
    ensures r.Some? && kind == BytesType ==> r.value.bytes == before.bytes + Concat(args)
    ensures r.Some? && kind == ListType ==> r.value.items == before.items + args
    ensures r.Some? && kind == StringType ==> r.value.s == before.s + ValidParts(args)
  {
    match kind
    case BytesType =>
      if before.BytesValue? then Some(BytesValue(before.bytes + Concat(args))) else None
    case ListType =>
      if before.ListValue? then Some(ListValue(before.items + args)) else None
    case StringType =>
      if before.StringValue? then
        var tail := ValidParts(args);
        ConcatValid(before.s, tail);
        Some(StringValue(before.s + tail))
      else None
  }

  // Rename and delete

  /**
   * `Rename::dispatch`: moves the value under the key to the name given as the
   * second argument, which must not exist yet, and responds with the new name.
   */
  function Rename(s: State, req: Request): (r: Reply)
    ensures r.Replied?
    ensures req.keyType.Some? ==> r == Replied(s, Err(KeyTypeUnexpected))
    ensures req.keyType.None? && Arg(req, 0).None? ==> r == Replied(s, Err(KeyUnspecified))
    ensures req.keyType.None? && Arg(req, 0).Some? && Arg(req, 1).None? ==> r == Replied(s, Err(ArgumentRetrieval))
    ensures r.response.Err? ==> r.state == s
    ensures req.keyType.None? && Arg(req, 0).Some? && Arg(req, 1).Some? ==>
      var from, to := Arg(req, 0).value, Arg(req, 1).value;
      (from !in s ==> r.response == Err(KeyNonexistent)) &&
      (from in s && to in s ==> r.response == Err(PreconditionFailed)) &&
      (r.response.Ok? <==> from in s && to !in s) &&
      (r.response.Ok? ==> (r.response.value == BytesValue(to) && from !in r.state && to in r.state &&
        r.state[to] == s[from] &&
        forall k :: k != from && k != to ==> (k in r.state <==> k in s) && (k in s ==> r.state[k] == s[k])))
  {
    if req.keyType.Some? then Replied(s, Err(KeyTypeUnexpected))
    else
      match Arg(req, 0)
      case None => Replied(s, Err(KeyUnspecified))
      case Some(from) =>
        match Arg(req, 1)
        case None => Replied(s, Err(ArgumentRetrieval))
        case Some(to) =>
          if !ContainsKey(s, from) then Replied(s, Err(KeyNonexistent))
          else if ContainsKey(s, to) then Replied(s, Err(PreconditionFailed))
          else
            match Remove(s, from)
            case (s1, None) => Replied(s1, Err(KeyNonexistent))
            case (s1, Some((_, v))) => Replied(Insert(s1, to, v).0, Ok(BytesValue(to)))
  }

  /** `Delete::dispatch`: removes the key, which must exist, and responds with it. */
  function Delete(s: State, req: Request): (r: Reply)
    ensures r.Replied?
    ensures req.keyType.Some? ==> r == Replied(s, Err(KeyTypeUnexpected))
    ensures req.keyType.None? && Requests.Key(req).None? ==> r == Replied(s, Err(KeyUnspecified))
    ensures r.response.Err? ==> r.state == s
    ensures req.keyType.None? && Requests.Key(req).Some? ==>
      var key := Requests.Key(req).value;
      (key !in s ==> r == Replied(s, Err(PreconditionFailed))) &&
      (key in s ==> (r.response == Ok(BytesValue(key)) && key !in r.state &&
        forall k :: k != key ==> (k in r.state <==> k in s) && (k in s ==> r.state[k] == s[k])))
  {
    if req.keyType.Some? then Replied(s, Err(KeyTypeUnexpected))
    else
      match Requests.Key(req)
      case None => Replied(s, Err(KeyUnspecified))
      case Some(key) =>
        match Remove(s, key)
        case (s1, None) => Replied(s1, Err(PreconditionFailed))
        case (s1, Some((k, _))) => Replied(s1, Ok(BytesValue(k)))
  }

  // Exists and is

  /** Whether every key is present, stopping at the first that is not. */
  function AllPresent(s: State, keys: seq<Bytes>): (r: bool)
    ensures r <==> forall i :: 0 <= i < |keys| ==> keys[i] in s
  {
    if |keys| == 0 then true
    else ContainsKey(s, keys[0]) && AllPresent(s, keys[1..])
  }

  /** `Exists::dispatch`: whether every argument names a present key. It never changes the keyspace. */
  function Exists(s: State, req: Request): (r: Reply)
    ensures r.Replied? && r.state == s
    ensures req.keyType.Some? ==> r.response == Err(KeyTypeUnexpected)
    ensures req.keyType.None? ==> (r.response == Err(ArgumentRetrieval) <==> ArgCount(req) == 0)
    ensures r.response.Ok? ==> (r.response.value.BooleanValue? &&
      (r.response.value.b <==> forall k :: k in Collect(req, 0, ArgCount(req)) ==> k in s))
  {
    if req.keyType.Some? then Replied(s, Err(KeyTypeUnexpected))
    else
      match Args(req, Unbounded, Unbounded)
      case None => Replied(s, Err(ArgumentRetrieval))
      case Some(keys) => Replied(s, Ok(BooleanValue(AllPresent(s, keys))))
  }

  /** A key that is present with the given kind. */
  predicate HasKind(s: State, key: Bytes, kind: KeyType) {
    key in s && Kind(s[key]) == kind
  }

  /**
   * Looking keys up one by one with `key_ref` until one is missing or of another
   * kind never meets an internal key, where `key_ref` would panic.
   */
  predicate KindScanSafe(s: State, keys: seq<Bytes>, kind: KeyType) {
    |keys| == 0 || (!IsInternal(keys[0]) && (HasKind(s, keys[0], kind) ==> KindScanSafe(s, keys[1..], kind)))
  }

  /**
   * Whether every key is present with the given kind, stopping at the first that
   * is not; `None` when the scan panics on an internal key before it stops.
   */
  function AllOfKind(s: State, keys: seq<Bytes>, kind: KeyType): (r: Option<bool>)
    ensures r.None? <==> !KindScanSafe(s, keys, kind)
    ensures r.Some? ==> (r.value <==> forall i :: 0 <= i < |keys| ==> HasKind(s, keys[i], kind))
  {
    if |keys| == 0 then Some(true)
    else if IsInternal(keys[0]) then None
    else
      match KeyRef(s, keys[0])
      case None => Some(false)
      case Some(v) => if Kind(v) != kind then Some(false) else AllOfKind(s, keys[1..], kind)
  }

  predicate IsSafe(s: State, req: Request) {
    req.keyType.Some? && ArgCount(req) > 0 ==> KindScanSafe(s, Collect(req, 0, ArgCount(req)), req.keyType.value)
  }

  /**
   * `Is::dispatch`: whether every argument names a present key of the request's key
   * type. It never changes the keyspace, and panics when the scan meets an
   * internal key.
   */
  function Is(s: State, req: Request): (r: Reply)
    ensures r.state == s
    ensures r.Panicked? <==> !IsSafe(s, req)
    ensures req.keyType.None? ==> r.Replied? && r.response == Err(KeyTypeRequired)
    ensures req.keyType.Some? ==> (r.Replied? && r.response == Err(ArgumentRetrieval) <==> ArgCount(req) == 0)
    ensures r.Replied? && r.response.Ok? ==> (r.response.value.BooleanValue? &&
      (r.response.value.b <==> forall k :: k in Collect(req, 0, ArgCount(req)) ==> HasKind(s, k, req.keyType.value)))
  {
    match req.keyType
    case None => Replied(s, Err(KeyTypeRequired))
    case Some(kind) =>
      match Args(req, Unbounded, Unbounded)
      case None => Replied(s, Err(ArgumentRetrieval))
      case Some(keys) =>
        match AllOfKind(s, keys, kind)
        case None => Panicked(s)
        case Some(all) => Replied(s, Ok(BooleanValue(all)))
  }

  // Get, type and keys

  /**
   * `Get::dispatch`: the value under the key, when there is one and it has the
   * request's key type if one is given. It never changes the keyspace, and panics
   * on an internal key.
   */
  function Get(s: State, req: Request): (r: Reply)
    ensures r.state == s
    ensures r.Panicked? <==> Requests.Key(req).Some? && IsInternal(Requests.Key(req).value)
    ensures Requests.Key(req).None? ==> r.response == Err(KeyUnspecified)
    ensures r.Replied? && Requests.Key(req).Some? ==>
      var key := Requests.Key(req).value;
      (key !in s ==> r.response == Err(KeyNonexistent)) &&
      (key in s && req.keyType.Some? && req.keyType.value != Kind(s[key]) ==> r.response == Err(KeyTypeDifferent)) &&
      (key in s && (req.keyType.None? || req.keyType.value == Kind(s[key])) ==> r.response == Ok(s[key]))
  {
    match Requests.Key(req)
    case None => Replied(s, Err(KeyUnspecified))
    case Some(key) =>
      if IsInternal(key) then Panicked(s)
      else
        match KeyRef(s, key)
        case None => Replied(s, Err(KeyNonexistent))
        case Some(v) =>
          if req.keyType.Some? && Kind(v) != req.keyType.value then Replied(s, Err(KeyTypeDifferent))
          else Replied(s, Ok(v))
  }

  /**
   * `Type::dispatch`: the code of the stored value's kind, as an integer. It never
   * changes the keyspace, and panics on an internal key without a key type.
   */
  function Type(s: State, req: Request): (r: Reply)
    ensures r.state == s
    ensures r.Panicked? <==> Requests.Key(req).Some? && req.keyType.None? && IsInternal(Requests.Key(req).value)
    ensures Requests.Key(req).None? ==> r.response == Err(KeyUnspecified)
    ensures Requests.Key(req).Some? && req.keyType.Some? ==> r.response == Err(KeyTypeUnexpected)
    ensures r.Replied? && Requests.Key(req).Some? && req.keyType.None? ==>
      var key := Requests.Key(req).value;
      (key !in s ==> r.response == Err(KeyNonexistent)) &&
      (key in s ==> (r.response.Ok? && r.response.value.IntegerValue? && 0 <= r.response.value.i < 256 &&
        KeyTypeTryFromU8(r.response.value.i) == Some(Kind(s[key]))))
  {
    match Requests.Key(req)
    case None => Replied(s, Err(KeyUnspecified))
    case Some(key) =>
      if req.keyType.Some? then Replied(s, Err(KeyTypeUnexpected))
      else if IsInternal(key) then Panicked(s)
      else
        match KeyRef(s, key)
        case None => Replied(s, Err(KeyNonexistent))
        case Some(v) =>
          KeyTypeRoundTrip(Kind(v));
          Replied(s, Ok(IntegerValue(KeyTypeCode(Kind(v)) as int)))
  }

  /** A keys request with an internal key panics unless it names a key type other than Map. */
  predicate KeysSafe(req: Request) {
    Requests.Key(req).Some? && (req.keyType.None? || req.keyType == Some(MapType)) ==>
      !IsInternal(Requests.Key(req).value)
  }

  /**
   * The order the map under the key is iterated in: the map stored there, or the
   * empty map `typed_key` inserts for an absent key.
   */
  predicate KeysVisits(s: State, req: Request, order: seq<Bytes>) {
    Requests.Key(req).Some? ==>
      var key := Requests.Key(req).value;
      (key in s && s[key].MapValue? ==> IsEnumeration(order, s[key].entries.Keys)) &&
      (key !in s ==> order == [])
  }

  /**
   * `Keys::dispatch`: the keys of the map under the key, each once, in the map's
   * iteration order `order`. An absent key gets an empty map; an internal key
   * panics before anything changes.
   */
  function Keys(s: State, req: Request, order: seq<Bytes>): (r: Reply)
    requires KeysVisits(s, req, order)
    ensures r.Panicked? <==> !KeysSafe(req)
    ensures r.Panicked? ==> r.state == s
    ensures Requests.Key(req).None? ==> r == Replied(s, Err(KeyUnspecified))
    ensures Requests.Key(req).Some? && req.keyType.Some? && req.keyType.value != MapType ==>
      r == Replied(s, Err(KeyTypeInvalid))
    ensures r.Replied? && Requests.Key(req).Some? && (req.keyType.None? || req.keyType == Some(MapType)) ==>
      var key := Requests.Key(req).value;
      (key in s ==> r.state == s) &&
      (key !in s ==> r.state == s[key := MapValue(map[])]) &&
      (r.response.Ok? <==> key !in s || s[key].MapValue?) &&
      (r.response.Err? ==> r.response.error == KeyTypeDifferent) &&
      (r.response.Ok? ==> (r.response.value.ListValue? && Distinct(r.response.value.items) &&
        forall k :: k in r.response.value.items <==> key in s && k in s[key].entries))
  {
    match Requests.Key(req)
    case None => Replied(s, Err(KeyUnspecified))
    case Some(key) =>
      if req.keyType.Some? && req.keyType.value != MapType then Replied(s, Err(KeyTypeInvalid))
      else if IsInternal(key) then Panicked(s)
      else
        match TypedKey(s, key, MapType)
        case (s1, None) => Replied(s1, Err(KeyTypeDifferent))
        case (s1, Some(_)) => Replied(s1, Ok(ListValue(order)))
  }

  // Length

  /** How long a value is: bytes for Bytes, items for a List, Unicode scalar values for a String. */
  function Size(v: Value): nat {
    match v
    case BytesValue(b) => |b|
    case ListValue(items) => |items|
    case StringValue(t) => CharCount(t)
    case _ => 0
  }

  predicate Measurable(kind: KeyType) {
    kind in {BytesType, ListType, StringType}
  }

  /** The type a length works on: the request's key type, else the stored value's kind, else Bytes. */
  function LengthKind(s: State, req: Request, key: Bytes): KeyType {
    if req.keyType.Some? then req.keyType.value else if key in s then Kind(s[key]) else BytesType
  }

  /** A length with an internal key panics unless it names a key type it cannot measure. */
  predicate LengthSafe(req: Request) {
    Requests.Key(req).Some? && IsInternal(Requests.Key(req).value) ==>
      req.keyType.Some? && !Measurable(req.keyType.value)
  }

  /**
   * `Length::dispatch`: the size of the value under the key, cast to i64. An absent
   * key is first created with the empty value of the type measured. An internal
   * key panics before anything changes.
   */
  function Length(s: State, req: Request): (r: Reply)
    ensures r.Panicked? <==> !LengthSafe(req)
    ensures r.Panicked? ==> r.state == s
    ensures Requests.Key(req).None? ==> r == Replied(s, Err(KeyRetrieval))
    ensures r.Replied? && Requests.Key(req).Some? ==>
      var key := Requests.Key(req).value;
      var kind := LengthKind(s, req, key);
      (key in s || !Measurable(kind) ==> r.state == s) &&
      (key !in s && Measurable(kind) ==> r.state == s[key := Default(kind)]) &&
      (r.response.Ok? <==> Measurable(kind) && (key !in s || Kind(s[key]) == kind)) &&
      (r.response.Err? ==> r.response.error == WrongType) &&
      (r.response.Ok? ==> r.response == Ok(IntegerValue(AsI64(Size(r.state[key])))))
  {
    match Requests.Key(req)
    case None => Replied(s, Err(KeyRetrieval))
    case Some(key) =>
      if req.keyType.Some? && !Measurable(req.keyType.value) then Replied(s, Err(WrongType))
      else if IsInternal(key) then Panicked(s)
      else
        var (s1, kind) :=
          if req.keyType.Some? then (s, req.keyType.value)
          else var (t, v) := KeyOrInsertWith(s, key, Default(BytesType)); (t, Kind(v));
        if Measurable(kind) then
          match TypedKey(s1, key, kind)
          case (s2, None) => Replied(s2, Err(WrongType))
          case (s2, Some(v)) => Replied(s2, Ok(IntegerValue(AsI64(Size(v)))))
        else Replied(s1, Err(WrongType))
  }

  // Increment and decrement

  /**
   * Floating-point arithmetic on bit patterns: `add(x, n)` is `x + n as f64` and
   * `sub(x, n)` is `x - n as f64`, each rounded to the nearest `f64`.
   */
  datatype FloatArith = FloatArith(add: (uint64, int64) -> uint64, sub: (uint64, int64) -> uint64)

  /** A change of `key` panics on an internal key exactly when the type changed is Integer or Float. */
  predicate ChangeSafe(key: Bytes, keyType: Option<KeyType>) {
    keyType.None? || keyType.value in {IntegerType, FloatType} ==> !IsInternal(key)
  }

  /**
   * The integer arm of a change: `typed_key` for an Integer, then `old + delta`,
   * which wraps around at 64 bits as unchecked `i64` arithmetic does. An internal
   * key panics before anything changes.
   */
  function ChangeInteger(s: State, key: Bytes, delta: int64): (r: Reply)
    ensures IsInternal(key) ==> r == Panicked(s)
    ensures !IsInternal(key) && key in s && !s[key].IntegerValue? ==> r == Replied(s, Err(KeyRetrieval))
    ensures !IsInternal(key) && (key !in s || s[key].IntegerValue?) ==>
      var after := IntegerValue(WrapI64((if key in s then s[key].i else 0) + delta));
      r == Replied(s[key := after], Ok(after))
  {
    if IsInternal(key) then Panicked(s)
    else
      match TypedKey(s, key, IntegerType)
      case (s1, None) => Replied(s1, Err(KeyRetrieval))
      case (s1, Some(v)) =>
        var after := IntegerValue(WrapI64(v.i + delta));
        assert s1[key := after] == s[key := after];
        Replied(s1[key := after], Ok(after))
  }

  /**
   * The shared body of `IncrementBy::increment` and `DecrementBy::decrement`: adds
   * `delta` to the integer under the key (0 when absent), or applies `float` to the
   * float under it, and responds with the new value. An internal key panics
   * before anything changes.
   */
  function Change(s: State, key: Bytes, keyType: Option<KeyType>, delta: int64, float: uint64 -> uint64): (r: Reply)
    ensures r.Panicked? <==> !ChangeSafe(key, keyType)
    ensures r.Panicked? ==> r.state == s
    ensures keyType.Some? && keyType.value !in {IntegerType, FloatType} ==> r == Replied(s, Err(WrongType))
    ensures r.Replied? && (keyType.None? || keyType.value in {IntegerType, FloatType}) ==>
      var kind := if keyType.None? then IntegerType else keyType.value;
      (key in s && Kind(s[key]) != kind ==> r == Replied(s, Err(KeyRetrieval))) &&
      (key !in s || Kind(s[key]) == kind ==>
        var before := if key in s then s[key] else Default(kind);
        var after := if kind == IntegerType then IntegerValue(WrapI64(before.i + delta)) else FloatValue(float(before.bits));
        r == Replied(s[key := after], Ok(after)))
  {
    match keyType
    case Some(FloatType) =>
      if IsInternal(key) then Panicked(s)
      else
        (match TypedKey(s, key, FloatType)
         case (s1, None) => Replied(s1, Err(KeyRetrieval))
         case (s1, Some(v)) =>
           var after := FloatValue(float(v.bits));
           assert s1[key := after] == s[key := after];
           Replied(s1[key := after], Ok(after)))
    case Some(IntegerType) => ChangeInteger(s, key, delta)
    case None => ChangeInteger(s, key, delta)
    case Some(_) => Replied(s, Err(WrongType))
  }

  /** The integer under the key before a change; an absent key counts as 0. */
  function Before(s: State, key: Bytes): int {
    if key in s && s[key].IntegerValue? then s[key].i else 0
  }

  /** A change of an integer by `delta` succeeds with `old + delta`, wrapped to an i64, stored and returned. */
  predicate ChangedBy(s: State, key: Bytes, r: Reply, delta: int) {
    r.Replied? && r.response.Ok? && r.response.value.IntegerValue? ==>
      r.response.value.i == WrapI64(Before(s, key) + delta) && r.state == s[key := r.response.value]
  }

  /**
   * `Increment::dispatch`: `IncrementBy::increment` by 1 on the key. This revision
   * reports a missing key as KeyUnspecified.
   */
  function Increment(s: State, req: Request, arith: FloatArith): (r: Reply)
    ensures r.Panicked? <==> Requests.Key(req).Some? && !ChangeSafe(Requests.Key(req).value, req.keyType)
    ensures Requests.Key(req).None? ==> r == Replied(s, Err(KeyUnspecified))
    ensures Requests.Key(req).Some? ==> r == Change(s, Requests.Key(req).value, req.keyType, 1, x => arith.add(x, 1))
    ensures Requests.Key(req).Some? ==> ChangedBy(s, Requests.Key(req).value, r, 1)
  {
    match Requests.Key(req)
    case None => Replied(s, Err(KeyUnspecified))
    case Some(key) => Change(s, key, req.keyType, 1, x => arith.add(x, 1))
  }

  /**
   * `IncrementBy::dispatch`: `IncrementBy::increment` by 1 on the key; the amount is
   * never read from the request. A missing key is KeyRetrieval.
   */
  function IncrementBy(s: State, req: Request, arith: FloatArith): (r: Reply)
    ensures r.Panicked? <==> Requests.Key(req).Some? && !ChangeSafe(Requests.Key(req).value, req.keyType)
    ensures Requests.Key(req).None? ==> r == Replied(s, Err(KeyRetrieval))
    ensures Requests.Key(req).Some? ==> r == Change(s, Requests.Key(req).value, req.keyType, 1, x => arith.add(x, 1))
    ensures Requests.Key(req).Some? ==> ChangedBy(s, Requests.Key(req).value, r, 1)
  {
    match Requests.Key(req)
    case None => Replied(s, Err(KeyRetrieval))
    case Some(key) => Change(s, key, req.keyType, 1, x => arith.add(x, 1))
  }

  /** `Decrement::dispatch`: `DecrementBy::decrement` by 1 on the key. A missing key is KeyRetrieval. */
  function Decrement(s: State, req: Request, arith: FloatArith): (r: Reply)
    ensures r.Panicked? <==> Requests.Key(req).Some? && !ChangeSafe(Requests.Key(req).value, req.keyType)
    ensures Requests.Key(req).None? ==> r == Replied(s, Err(KeyRetrieval))
    ensures Requests.Key(req).Some? ==> r == Change(s, Requests.Key(req).value, req.keyType, -1, x => arith.sub(x, 1))
    ensures Requests.Key(req).Some? ==> ChangedBy(s, Requests.Key(req).value, r, -1)
  {
    match Requests.Key(req)
    case None => Replied(s, Err(KeyRetrieval))
    case Some(key) => Change(s, key, req.keyType, -1, x => arith.sub(x, 1))
  }

  /**
   * `DecrementBy::dispatch`: `DecrementBy::decrement` by 1 on the key; the amount is
   * never read from the request. A missing key is KeyRetrieval.
   */
  function DecrementBy(s: State, req: Request, arith: FloatArith): (r: Reply)
    ensures r.Panicked? <==> Requests.Key(req).Some? && !ChangeSafe(Requests.Key(req).value, req.keyType)
    ensures Requests.Key(req).None? ==> r == Replied(s, Err(KeyRetrieval))
    ensures Requests.Key(req).Some? ==> r == Change(s, Requests.Key(req).value, req.keyType, -1, x => arith.sub(x, 1))
    ensures Requests.Key(req).Some? ==> ChangedBy(s, Requests.Key(req).value, r, -1)
  {
    match Requests.Key(req)
    case None => Replied(s, Err(KeyRetrieval))
    case Some(key) => Change(s, key, req.keyType, -1, x => arith.sub(x, 1))
  }

  // Echo and stats

  /** `Echo::dispatch`: the request's arguments as a list, in order; none gives the empty list. */
  function Echo(s: State, req: Request): (r: Reply)
    ensures r.Replied? && r.state == s && r.response.Ok? && r.response.value.ListValue?
    ensures |r.response.value.items| == ArgCount(req) || Arg(req, |r.response.value.items|).None?
    ensures forall i :: 0 <= i < |r.response.value.items| ==> Arg(req, i) == Some(r.response.value.items[i])
  {
    match Args(req, Unbounded, Unbounded)
    case None => Replied(s, Ok(ListValue([])))
    case Some(args) => Replied(s, Ok(ListValue(args)))
  }

  /** `"Pong!"`. */
  const Pong: Bytes := [80, 111, 110, 103, 33]

  /** `Stats::dispatch` in this revision: the string "Pong!", whatever the request. */
  function Stats(s: State, req: Request): (r: Reply)
    ensures r.Replied? && r.state == s && r.response.Ok? && r.response.value.StringValue? && r.response.value.s == Pong
    ensures CharCount(r.response.value.s) == 5
  {
    AsciiValid(Pong);
    Replied(s, Ok(StringValue(Pong)))
  }
}
