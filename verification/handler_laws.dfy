/**
 * What the handlers promise when one command follows another, and what they do on
 * requests laid out by the request encoder.
 */
module HandlerLaws {
  import opened Bytes
  import opened Wrappers
  import opened Utf8
  import opened Values
  import opened Errors
  import opened Keyspace
  import CommandIds
  import opened Requests
  import opened Handlers
  import Responses
  import ResponseDecoder
  import ResponseRoundTrip

  /** The request the server reads off the encoding of `cmd`, `keyType` and `args`. */
  function Built(cmd: CommandIds.CommandId, keyType: Option<KeyType>, args: seq<Bytes>): (r: Request)
    requires ArgsFit(args)
    ensures r.cmd == cmd && r.keyType == keyType && ArgCount(r) == |args|
  {
    Parsed(Requests.Encode(cmd, keyType, args), cmd, keyType, args)
  }

  /** Each argument of a built request reads back as it was encoded. */
  lemma BuiltArg(cmd: CommandIds.CommandId, keyType: Option<KeyType>, args: seq<Bytes>, i: nat)
    requires !CommandIds.IsSimple(cmd) && ArgsFit(args) && i < |args|
    ensures Arg(Built(cmd, keyType, args), i) == Some(args[i])
  {
    var e := Requests.Encode(cmd, keyType, args);
    assert e + [] == e;
    ArgOfEncoded(cmd, keyType, args, [], i);
  }

  /** Every argument of a built request reads back, and so do the ranges the handlers take. */
  lemma BuiltArgs(cmd: CommandIds.CommandId, keyType: Option<KeyType>, args: seq<Bytes>, req: Request)
    requires !CommandIds.IsSimple(cmd) && ArgsFit(args) && req == Built(cmd, keyType, args)
    ensures forall i :: 0 <= i < |args| ==> Arg(req, i) == Some(args[i])
    ensures Collect(req, 0, |args|) == args
    ensures |args| > 0 ==> Collect(req, 1, |args|) == args[1..]
  {
    forall i | 0 <= i < |args|
      ensures Arg(req, i) == Some(args[i])
    {
      BuiltArg(cmd, keyType, args, i);
    }
    CollectAll(req, args, 0);
    if |args| > 0 {
      CollectAll(req, args, 1);
    }
  }

  // Set, then read back

  /** A set with key type Bytes stores the value argument as it came and responds with it. */
  lemma SetBytes(s: State, key: Bytes, value: Bytes, req: Request)
    requires ArgsFit([key, value]) && !IsInternal(key)
    requires req == Built(CommandIds.Set, Some(BytesType), [key, value])
    ensures Set(s, req) == Replied(s[key := BytesValue(value)], Ok(BytesValue(value)))
  {
    BuiltArgs(CommandIds.Set, Some(BytesType), [key, value], req);
  }

  /** An integer sent as its eight big-endian bytes is stored and answered as that integer. */
  lemma SetInteger(s: State, key: Bytes, x: int64, req: Request)
    requires ArgsFit([key, I64BE(x)]) && !IsInternal(key)
    requires req == Built(CommandIds.Set, Some(IntegerType), [key, I64BE(x)])
    ensures Set(s, req) == Replied(s[key := IntegerValue(x)], Ok(IntegerValue(x)))
  {
    BuiltArgs(CommandIds.Set, Some(IntegerType), [key, I64BE(x)], req);
    assert I64BE(x)[..8] == I64BE(x);
    I64RoundTrip(x);
  }

  /** ... and the response to that set decodes, at the client, to the same integer. */
  lemma SetIntegerAnswered(s: State, key: Bytes, x: int64, req: Request)
    requires ArgsFit([key, I64BE(x)]) && !IsInternal(key)
    requires req == Built(CommandIds.Set, Some(IntegerType), [key, I64BE(x)])
    ensures Set(s, req).Replied? && Set(s, req).response.Ok?
    ensures var answer := Responses.AsBytes(Responses.ValueResponse(Set(s, req).response.value), []);
      ResponseDecoder.Feed(ResponseDecoder.New, answer) ==
      (ResponseDecoder.New, ResponseDecoder.Instr(ResponseDecoder.Concluded(Responses.ValueResponse(IntegerValue(x)))))
  {
    SetInteger(s, key, x, req);
    var resp := Responses.ValueResponse(IntegerValue(x));
    ResponseRoundTrip.AsBytesDecodes(resp, [], []);
    assert Responses.AsBytes(resp, []) + [] == Responses.AsBytes(resp, []);
  }

  /** A get after a successful set answers with what the set answered, unless it names another type. */
  lemma SetThenGet(s: State, put: Request, get: Request)
    requires Set(s, put).Replied? && Set(s, put).response.Ok?
    requires Requests.Key(get) == Requests.Key(put)
    requires get.keyType.None? || get.keyType == Some(Kind(Set(s, put).response.value))
    ensures Requests.Key(get).Some? && !IsInternal(Requests.Key(get).value)
    ensures Get(Set(s, put).state, get) == Set(s, put)
  {
  }

  /** A type request after a successful set reports the type the set stored under. */
  lemma SetThenType(s: State, put: Request, t: Request)
    requires Set(s, put).Replied? && Set(s, put).response.Ok?
    requires Requests.Key(t) == Requests.Key(put) && t.keyType.None?
    ensures Requests.Key(t).Some? && !IsInternal(Requests.Key(t).value)
    ensures Type(Set(s, put).state, t).response.Ok?
    ensures KeyTypeTryFromU8(Type(Set(s, put).state, t).response.value.i) == Some(SetKind(s, put, Requests.Key(put).value))
  {
  }

  /** An is-request for the key just set, with the type the set stored under, answers true. */
  lemma SetThenIs(s: State, put: Request, key: Bytes, req: Request)
    requires Set(s, put).Replied? && Set(s, put).response.Ok? && Requests.Key(put) == Some(key)
    requires ArgsFit([key]) && req == Built(CommandIds.Is, Some(SetKind(s, put, key)), [key])
    ensures IsSafe(Set(s, put).state, req)
    ensures Is(Set(s, put).state, req) == Replied(Set(s, put).state, Ok(BooleanValue(true)))
  {
    BuiltArgs(CommandIds.Is, Some(SetKind(s, put, key)), [key], req);
  }

  /**
   * Nothing keeps a client from sending a key with the internal prefix: a set of
   * one with a key type that converts removes the key, then panics.
   */
  lemma SetInternalPanics(s: State, key: Bytes, value: Bytes, req: Request)
    requires IsInternal(key) && ArgsFit([key, value])
    requires req == Built(CommandIds.Set, Some(BytesType), [key, value])
    ensures Set(s, req) == Panicked(s - {key})
  {
    BuiltArgs(CommandIds.Set, Some(BytesType), [key, value], req);
  }

  /** A length of a key with the internal prefix panics before anything changes. */
  lemma LengthOfInternalPanics(s: State, key: Bytes, req: Request)
    requires IsInternal(key) && ArgsFit([key]) && req == Built(CommandIds.Length, None, [key])
    ensures Length(s, req) == Panicked(s)
  {
    BuiltArgs(CommandIds.Length, None, [key], req);
  }

  // Delete, exists and rename

  /** Exists over encoded keys answers whether every one of them is present. */
  lemma ExistsBuilt(s: State, keys: seq<Bytes>, req: Request)
    requires |keys| > 0 && ArgsFit(keys) && req == Built(CommandIds.Exists, None, keys)
    ensures Exists(s, req) == Replied(s, Ok(BooleanValue(AllPresent(s, keys))))
    ensures AllPresent(s, keys) <==> forall i :: 0 <= i < |keys| ==> keys[i] in s
  {
    BuiltArgs(CommandIds.Exists, None, keys, req);
    assert Args(req, Unbounded, Unbounded) == Some(keys);
  }

  /** A deleted key no longer exists. */
  lemma DeleteThenExists(s: State, del: Request, key: Bytes, ex: Request)
    requires del.keyType.None? && Requests.Key(del) == Some(key)
    requires ArgsFit([key]) && ex == Built(CommandIds.Exists, None, [key])
    ensures Exists(Delete(s, del).state, ex) == Replied(Delete(s, del).state, Ok(BooleanValue(false)))
  {
    ExistsBuilt(Delete(s, del).state, [key], ex);
  }

  /** Deleting the same key twice: the second delete fails and changes nothing. */
  lemma DeleteTwice(s: State, req: Request)
    requires req.keyType.None? && Requests.Key(req).Some?
    ensures Delete(Delete(s, req).state, req) == Replied(Delete(s, req).state, Err(PreconditionFailed))
  {
  }

  /** A rename of a present key to an absent one moves the value across. */
  lemma RenameBuilt(s: State, a: Bytes, b: Bytes, req: Request)
    requires a in s && b !in s && ArgsFit([a, b]) && req == Built(CommandIds.Rename, None, [a, b])
    ensures Rename(s, req) == Replied((s - {a})[b := s[a]], Ok(BytesValue(b)))
  {
    BuiltArgs(CommandIds.Rename, None, [a, b], req);
    assert Arg(req, 0) == Some(a) && Arg(req, 1) == Some(b);
  }

  /** Renaming a key to a fresh name and back restores the keyspace. */
  lemma RenameBack(s: State, a: Bytes, b: Bytes, there: Request, back: Request)
    requires a in s && b !in s && ArgsFit([a, b]) && ArgsFit([b, a])
    requires there == Built(CommandIds.Rename, None, [a, b]) && back == Built(CommandIds.Rename, None, [b, a])
    ensures Rename(s, there).response == Ok(BytesValue(b))
    ensures Rename(Rename(s, there).state, back) == Replied(s, Ok(BytesValue(a)))
  {
    RenameBuilt(s, a, b, there);
    var s1 := (s - {a})[b := s[a]];
    RenameBuilt(s1, b, a, back);
    assert s1 - {b} == s - {a};
    assert (s - {a})[a := s[a]] == s;
  }

  // Increment and decrement

  /**
   * Incrementing an integer and decrementing it again restores the keyspace, the
   * largest integer included: it wraps to the smallest and back.
   */
  lemma IncrementThenDecrement(s: State, inc: Request, dec: Request, arith: FloatArith, key: Bytes)
    requires Requests.Key(inc) == Some(key) && Requests.Key(dec) == Some(key)
    requires inc.keyType.None? && dec.keyType.None? && !IsInternal(key)
    requires key in s && s[key].IntegerValue?
    ensures Decrement(Increment(s, inc, arith).state, dec, arith) == Replied(s, Ok(s[key]))
  {
    var x: int := s[key].i;
    var y: int := WrapI64(x + 1);
    assert WrapI64(y - 1) == x;
    var s1 := Increment(s, inc, arith).state;
    assert s1 == s[key := IntegerValue(y)];
    assert s1[key := s[key]] == s;
  }

  /** No overflow check: incrementing the largest integer stores the smallest. */
  lemma IncrementWraps(s: State, inc: Request, arith: FloatArith, key: Bytes)
    requires Requests.Key(inc) == Some(key) && inc.keyType.None? && !IsInternal(key)
    requires key in s && s[key] == IntegerValue(I64_MAX)
    ensures Increment(s, inc, arith) == Replied(s[key := IntegerValue(I64_MIN)], Ok(IntegerValue(I64_MIN)))
  {
  }

  /** Incrementing an absent key stores 1. */
  lemma IncrementAbsent(s: State, inc: Request, arith: FloatArith, key: Bytes)
    requires Requests.Key(inc) == Some(key) && inc.keyType.None? && !IsInternal(key) && key !in s
    ensures Increment(s, inc, arith) == Replied(s[key := IntegerValue(1)], Ok(IntegerValue(1)))
  {
  }

  // Append and length

  /** How much an append grows a value: bytes, items, or scalar values of the UTF-8 arguments. */
  function Added(kind: KeyType, args: seq<Bytes>): nat {
    match kind
    case BytesType => |Concat(args)|
    case ListType => |args|
    case StringType => CharCount(ValidParts(args))
    case _ => 0
  }

  /** A successful append grows the value by what its arguments add. */
  lemma AppendGrows(s: State, app: Request)
    requires Append(s, app).Replied? && Append(s, app).response.Ok?
    ensures var key := Arg(app, 0).value;
      var kind := AppendKind(s, app, key);
      var before := if key in s then s[key] else Default(kind);
      Size(Append(s, app).response.value) == Size(before) + Added(kind, Collect(app, 1, ArgCount(app)))
  {
    var key := Arg(app, 0).value;
    var kind := AppendKind(s, app, key);
    var args := Collect(app, 1, ArgCount(app));
    var before := if key in s then s[key] else Default(kind);
    var after := Append(s, app).response.value;
    if kind == StringType {
      assert after.s == before.s + ValidParts(args);
      ConcatValid(before.s, ValidParts(args));
    } else if kind == BytesType {
      assert after.bytes == before.bytes + Concat(args);
    } else {
      assert after.items == before.items + args;
    }
  }

  /** A length after a successful append is the old length plus what the arguments add. */
  lemma AppendThenLength(s: State, app: Request, len: Request)
    requires Append(s, app).Replied? && Append(s, app).response.Ok?
    requires Requests.Key(len) == Arg(app, 0) && len.keyType.None?
    ensures LengthSafe(len)
    ensures var key := Arg(app, 0).value;
      var kind := AppendKind(s, app, key);
      var before := if key in s then s[key] else Default(kind);
      var grown := Size(before) + Added(kind, Collect(app, 1, ArgCount(app)));
      Length(Append(s, app).state, len) == Replied(Append(s, app).state, Ok(IntegerValue(AsI64(grown))))
  {
    AppendGrows(s, app);
    var key := Arg(app, 0).value;
    var s1 := Append(s, app).state;
    assert key in s1 && s1[key] == Append(s, app).response.value;
  }

  /** A length of an absent key measures the empty bytes it creates. */
  lemma LengthOfAbsent(s: State, req: Request, key: Bytes)
    requires Requests.Key(req) == Some(key) && key !in s && req.keyType.None? && !IsInternal(key)
    ensures Length(s, req) == Replied(s[key := BytesValue([])], Ok(IntegerValue(0)))
  {
  }

  // Keys and echo

  /** The keys of an absent key: an empty map is created and the answer is the empty list. */
  lemma KeysOfAbsent(s: State, req: Request, key: Bytes)
    requires Requests.Key(req) == Some(key) && key !in s && req.keyType.None? && !IsInternal(key)
    ensures Keys(s, req, []) == Replied(s[key := MapValue(map[])], Ok(ListValue([])))
  {
  }

  /** The keys after a map is set are exactly the keys of that map, each once. */
  lemma SetMapThenKeys(s: State, put: Request, keys: Request, order: seq<Bytes>)
    requires Set(s, put).Replied? && Set(s, put).response.Ok? && Set(s, put).response.value.MapValue?
    requires Requests.Key(keys) == Requests.Key(put) && keys.keyType.None?
    requires Enumerations.IsEnumeration(order, Set(s, put).response.value.entries.Keys)
    ensures KeysSafe(keys) && KeysVisits(Set(s, put).state, keys, order)
    ensures Keys(Set(s, put).state, keys, order) == Replied(Set(s, put).state, Ok(ListValue(order)))
    ensures forall k :: k in order <==> k in Set(s, put).response.value.entries
  {
  }

  /** Echo answers with the arguments of an encoded request, in order. */
  lemma EchoOfEncoded(s: State, args: seq<Bytes>, req: Request)
    requires ArgsFit(args) && |args| > 0 && req == Built(CommandIds.Echo, None, args)
    ensures Echo(s, req) == Replied(s, Ok(ListValue(args)))
  {
    BuiltArgs(CommandIds.Echo, None, args, req);
    assert Args(req, Unbounded, Unbounded) == Some(args);
  }

  /** Echo of a request without arguments answers with the empty list. */
  lemma EchoOfNothing(s: State, req: Request)
    requires req.cmd == CommandIds.Echo && ArgCount(req) == 0
    ensures Echo(s, req) == Replied(s, Ok(ListValue([])))
  {
  }
}
