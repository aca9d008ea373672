/**
 * The request builder: a command id, an optional key type and the arguments added
 * so far, never empty ones and never more than the count byte can hold. A failed
 * addition is reported, and what it pushed before failing stays pushed.
 */
module RequestBuilders {
  import opened Bytes
  import opened Wrappers
  import opened Values
  import opened CommandIds
  import opened Enumerations
  import opened Requests
  import opened RequestParser
  import opened RequestParsing

  datatype BuilderError = ArgumentEmpty | TooManyArguments | ValueEmpty

  /** The most arguments a request's count byte is allowed to announce. */
  const MaxArguments: nat := 255

  /** `RequestBuilder`: `arguments` is `None` until the first argument is pushed. */
  datatype Builder = Builder(arguments: Option<seq<Bytes>>, cmd: CommandId, keyType: Option<KeyType>)

  /** The request a builder turns into: its arguments, key type and command. */
  datatype Built = Built(args: Option<seq<Bytes>>, keyType: Option<KeyType>, kind: CommandId)

  /** The arguments held, none when the list has not been created. */
  function Held(b: Builder): seq<Bytes> {
    if b.arguments.Some? then b.arguments.value else []
  }

  /** A builder within the argument limit. */
  predicate Fits(b: Builder) {
    |Held(b)| <= MaxArguments
  }

  /** `RequestBuilder::new`: no arguments and no key type. */
  function NewBuilder(cmd: CommandId): (r: Builder)
    ensures r.arguments.None? && r.keyType.None? && r.cmd == cmd
    ensures Held(r) == [] && Fits(r)
  {
    Builder(None, cmd, None)
  }

  /** `key_type`: sets the key type, replacing any earlier one. */
  function WithKeyType(b: Builder, k: KeyType): (r: Builder)
    ensures r.keyType == Some(k) && r.arguments == b.arguments && r.cmd == b.cmd
  {
    b.(keyType := Some(k))
  }

  /** `argument_ref`: the argument at an index, if there is one. */
  function ArgumentRef(b: Builder, i: nat): (r: Option<Bytes>)
    ensures r.Some? <==> i < |Held(b)|
    ensures r.Some? ==> r.value == Held(b)[i]
  {
    match b.arguments
    case None => None
    case Some(args) => if i < |args| then Some(args[i]) else None
  }

  /** `arguments_would_overfill`: whether `len` more arguments would pass the limit. */
  function WouldOverfill(b: Builder, len: nat): (r: bool)
    ensures r <==> |Held(b)| + len > MaxArguments
  {
    match b.arguments
    case Some(args) => |args| + len > 255
    case None => len > 255
  }

  /** `push_argument`: refused once the limit is reached; otherwise the argument goes last. */
  function PushArgument(b: Builder, arg: Bytes): (r: (Builder, Option<BuilderError>))
    ensures r.1.Some? <==> |Held(b)| >= MaxArguments
    ensures r.1.Some? ==> r.1 == Some(TooManyArguments) && r.0 == b
    ensures r.1.None? ==> r.0 == b.(arguments := Some(Held(b) + [arg]))
  {
    match b.arguments
    case Some(args) =>
      if |args| >= 255 then (b, Some(TooManyArguments))
      else (b.(arguments := Some(args + [arg])), None)
    case None =>
      assert Held(b) + [arg] == [arg];
      (b.(arguments := Some([arg])), None)
  }

  /** `bytes`: an empty argument is refused and nothing changes. */
  function AddBytes(b: Builder, bytes: Bytes): (r: (Builder, Option<BuilderError>))
    ensures |bytes| == 0 ==> r == (b, Some(ArgumentEmpty))
    ensures |bytes| > 0 && |Held(b)| < MaxArguments ==> r == (b.(arguments := Some(Held(b) + [bytes])), None)
    ensures |bytes| > 0 && |Held(b)| >= MaxArguments ==> r == (b, Some(TooManyArguments))
  {
    if |bytes| == 0 then (b, Some(ArgumentEmpty)) else PushArgument(b, bytes)
  }

  /**
   * Pushes each argument in turn and stops at the first refusal: what fits below the
   * limit is pushed, and the rest is refused.
   */
  function PushArguments(b: Builder, args: seq<Bytes>): (r: (Builder, Option<BuilderError>))
    ensures r.0.cmd == b.cmd && r.0.keyType == b.keyType
    ensures r.1.None? <==> |Held(b)| + |args| <= MaxArguments || |args| == 0
    ensures r.1.Some? ==> r.1 == Some(TooManyArguments)
    ensures |Held(b)| + |args| <= MaxArguments ==> Held(r.0) == Held(b) + args
    ensures |Held(b)| + |args| > MaxArguments && |Held(b)| < MaxArguments ==>
      Held(r.0) == (Held(b) + args)[..MaxArguments]
    ensures |Held(b)| >= MaxArguments || |args| == 0 ==> r.0 == b
    ensures |Held(b)| < MaxArguments && |args| > 0 ==> r.0.arguments.Some?
    decreases |args|
  {
    if |args| == 0 then (b, None)
    else
      var (next, e) := PushArgument(b, args[0]);
      if e.Some? then (next, e)
      else
        assert Held(b) + args == Held(next) + args[1..] by {
          assert args == [args[0]] + args[1..];
        }
        PushArguments(next, args[1..])
  }

  /** The index of the first empty item, or the number of items when none is empty. */
  function FirstEmpty(items: seq<Bytes>): (r: nat)
    ensures r <= |items|
    ensures forall i :: 0 <= i < r ==> |items[i]| > 0
    ensures r < |items| ==> |items[r]| == 0
    decreases |items|
  {
    if |items| == 0 || |items[0]| == 0 then 0 else 1 + FirstEmpty(items[1..])
  }

  /**
   * The list loop: each item is refused when empty and pushed otherwise. Within the
   * limit, the items before the first empty one are pushed and an empty one is refused.
   */
  function PushListItems(b: Builder, items: seq<Bytes>): (r: (Builder, Option<BuilderError>))
    ensures r.0.cmd == b.cmd && r.0.keyType == b.keyType
    ensures |Held(b)| + |items| <= MaxArguments ==>
      (r.1.None? <==> FirstEmpty(items) == |items|)
      && (r.1.Some? ==> r.1 == Some(ValueEmpty))
      && Held(r.0) == Held(b) + items[..FirstEmpty(items)]
      && (FirstEmpty(items) == 0 ==> r.0 == b)
      && (FirstEmpty(items) > 0 ==> r.0.arguments.Some?)
    decreases |items|
  {
    if |items| == 0 then (b, None)
    else if |items[0]| == 0 then (b, Some(ValueEmpty))
    else
      var (next, e) := PushArgument(b, items[0]);
      if e.Some? then (next, e)
      else
        var r := PushListItems(next, items[1..]);
        assert |Held(b)| + |items| <= MaxArguments ==> Held(r.0) == Held(b) + items[..FirstEmpty(items)] by {
          if |Held(b)| + |items| <= MaxArguments {
            assert items[..FirstEmpty(items)] == [items[0]] + items[1..][..FirstEmpty(items[1..])];
          }
        }
        r
  }

  /** A map's entries in the visiting order `order`: each key followed by its value. */
  function EntryArgs(m: map<Bytes, Bytes>, order: seq<Bytes>): (r: seq<Bytes>)
    requires forall i :: 0 <= i < |order| ==> order[i] in m
    ensures |r| == 2 * |order|
    ensures forall i :: 0 <= i < |order| ==> r[2 * i] == order[i] && r[2 * i + 1] == m[order[i]]
    decreases |order|
  {
    if |order| == 0 then []
    else
      var n := |order| - 1;
      var front := EntryArgs(m, order[..n]);
      assert forall i :: 0 <= i < n ==> order[..n][i] == order[i];
      front + [order[n], m[order[n]]]
  }

  /** What `value` asks of its visiting order: it enumerates the map's keys or the set. */
  predicate OrderFor(v: Value, order: seq<Bytes>) {
    (v.MapValue? ==> IsEnumeration(order, v.entries.Keys))
    && (v.SetValue? ==> IsEnumeration(order, v.elems))
  }

  /**
   * The map arm of `value` as written: the limit check counts the entries, but each
   * entry pushes two arguments.
   */
  function AddMapAsWritten(b: Builder, m: map<Bytes, Bytes>, order: seq<Bytes>): (r: (Builder, Option<BuilderError>))
    requires IsEnumeration(order, m.Keys)
    ensures WouldOverfill(b, |m|) ==> r == (b, Some(TooManyArguments))
  {
    if WouldOverfill(b, |m|) then (b, Some(TooManyArguments))
    else if |m| == 0 then (b, Some(ValueEmpty))
    else PushArguments(b, EntryArgs(m, order))
  }

  /** The map arm as intended: the limit check counts the two arguments each entry pushes. */
  function AddMap(b: Builder, m: map<Bytes, Bytes>, order: seq<Bytes>): (r: (Builder, Option<BuilderError>))
    requires IsEnumeration(order, m.Keys)
    ensures WouldOverfill(b, 2 * |m|) ==> r == (b, Some(TooManyArguments))
    ensures !WouldOverfill(b, 2 * |m|) && |m| == 0 ==> r == (b, Some(ValueEmpty))
    ensures !WouldOverfill(b, 2 * |m|) && |m| > 0 ==>
      r == (b.(arguments := Some(Held(b) + EntryArgs(m, order))), None)
  {
    EnumerationLength(order, m.Keys);
    if WouldOverfill(b, 2 * |m|) then (b, Some(TooManyArguments))
    else if |m| == 0 then (b, Some(ValueEmpty))
    else PushArguments(b, EntryArgs(m, order))
  }

  /**
   * `value`: the argument bytes of each variant. A boolean is one byte, 1 or 0; a
   * float or an integer its 8 big-endian bytes; a list, map or set is checked
   * against the limit and pushes an argument per item, per key and value, or per
   * element; empty bytes, strings, maps and sets are refused. The map arm is the
   * corrected `AddMap`, which checks the limit against two arguments per entry;
   * the check as written is `AddMapAsWritten`.
   */
  function AddValue(b: Builder, v: Value, order: seq<Bytes>): (r: (Builder, Option<BuilderError>))
    requires OrderFor(v, order)
    ensures r.0.cmd == b.cmd && r.0.keyType == b.keyType
    ensures |Held(b)| <= |Held(r.0)| && Held(r.0)[..|Held(b)|] == Held(b)
    ensures Fits(b) ==> Fits(r.0)
  {
    match v
    case BooleanValue(x) => PushArgument(b, [if x then 1 else 0])
    case BytesValue(bytes) => if |bytes| == 0 then (b, Some(ValueEmpty)) else PushArgument(b, bytes)
    case FloatValue(bits) => PushArgument(b, BE(bits, 8))
    case IntegerValue(i) => PushArgument(b, I64BE(i))
    case ListValue(items) =>
      if WouldOverfill(b, |items|) then (b, Some(TooManyArguments)) else PushListItems(b, items)
    case MapValue(m) => AddMap(b, m, order)
    case SetValue(s) =>
      EnumerationLength(order, s);
      if WouldOverfill(b, |s|) then (b, Some(TooManyArguments))
      else if |s| == 0 then (b, Some(ValueEmpty))
      else PushArguments(b, order)
    case StringValue(s) => if |s| == 0 then (b, Some(ValueEmpty)) else PushArgument(b, s)
  }

  /** `into_request`: the arguments, key type and command, as they are. */
  function IntoRequest(b: Builder): (r: Built)
    ensures r.args == b.arguments && r.keyType == b.keyType && r.kind == b.cmd
  {
    Built(b.arguments, b.keyType, b.cmd)
  }

  /** `From<Request>`: a new builder for the command, given the request's key type and arguments. */
  function FromRequest(req: Built): (r: Builder)
    ensures r.arguments == req.args && r.keyType == req.keyType && r.cmd == req.kind
  {
    var b := NewBuilder(req.kind);
    var b := if req.keyType.Some? then WithKeyType(b, req.keyType.value) else b;
    if req.args.Some? then b.(arguments := req.args) else b
  }

  /** `into_bytes`: the request's wire layout. Each argument's length must fit its 4-byte prefix. */
  function IntoBytes(b: Builder): (r: Bytes)
    requires ArgsFit(Held(b))
  {
    Encode(b.cmd, b.keyType, Held(b))
  }

  // Properties.

  /** A builder and the request it turns into carry the same things. */
  lemma RequestRoundTrip(b: Builder, req: Built)
    ensures FromRequest(IntoRequest(b)) == b
    ensures IntoRequest(FromRequest(req)) == req
  {
  }

  lemma PushArgumentFits(b: Builder, arg: Bytes)
    requires Fits(b)
    ensures Fits(PushArgument(b, arg).0) && Fits(AddBytes(b, arg).0)
  {
  }

  /** An addition that is refused before anything is pushed leaves the builder as it was. */
  lemma RefusedUnchanged(b: Builder, v: Value, order: seq<Bytes>)
    requires OrderFor(v, order)
    requires (v.BytesValue? && v.bytes == []) || (v.StringValue? && v.s == [])
      || (v.MapValue? && v.entries == map[]) || (v.SetValue? && v.elems == {})
    ensures AddValue(b, v, order) == (b, Some(ValueEmpty)) || AddValue(b, v, order) == (b, Some(TooManyArguments))
    ensures !WouldOverfill(b, 0) ==> AddValue(b, v, order) == (b, Some(ValueEmpty))
  {
  }

  /** An empty list is accepted and pushes nothing. */
  lemma EmptyListAccepted(b: Builder)
    requires Fits(b)
    ensures AddValue(b, ListValue([]), []) == (b, None)
  {
  }

  lemma ListArm(b: Builder, items: seq<Bytes>)
    requires !WouldOverfill(b, |items|)
    ensures AddValue(b, ListValue(items), []) == PushListItems(b, items)
  {
  }

  /** A list with an empty item pushes the items before it and is then refused. */
  lemma ListStopsAtEmpty(b: Builder, items: seq<Bytes>)
    requires |Held(b)| + |items| <= MaxArguments && FirstEmpty(items) < |items|
    ensures AddValue(b, ListValue(items), []).1 == Some(ValueEmpty)
    ensures Held(AddValue(b, ListValue(items), []).0) == Held(b) + items[..FirstEmpty(items)]
  {
    ListArm(b, items);
  }

  /**
   * What a scalar value pushes reads back through the argument conversions: a
   * boolean, an integer, bytes and a string.
   */
  lemma ScalarReadsBack(b: Builder, v: Value)
    requires |Held(b)| < MaxArguments
    requires v.BooleanValue? || v.IntegerValue? || (v.BytesValue? && v.bytes != []) || (v.StringValue? && v.s != [])
    ensures AddValue(b, v, []).1.None?
    ensures var last := Held(AddValue(b, v, []).0)[|Held(b)|];
      (v.BooleanValue? ==> ToBool(last) == Some(v.b))
      && (v.IntegerValue? ==> ToInteger(last) == Some(v.i))
      && (v.BytesValue? ==> last == v.bytes)
      && (v.StringValue? ==> ToStr(last) == Some(v.s))
  {
    if v.IntegerValue? {
      ToIntegerRoundTrip(v.i, []);
      assert I64BE(v.i) + [] == I64BE(v.i);
    }
  }

  /** The entries of a map, pushed in any visiting order, are paired back into that map. */
  lemma {:induction false} EntriesPairBack(m: map<Bytes, Bytes>, order: seq<Bytes>)
    requires forall i :: 0 <= i < |order| ==> order[i] in m
    ensures ToMap(EntryArgs(m, order)) == map k | k in m && k in order :: m[k]
    decreases |order|
  {
    if |order| > 0 {
      var n := |order| - 1;
      EntriesPairBack(m, order[..n]);
      ToMapAppendPair(EntryArgs(m, order[..n]), order[n], m[order[n]]);
      assert forall k :: k in order <==> k in order[..n] || k == order[n];
    }
  }

  /** `typed_args` of a request built from a map value gives back the map. */
  lemma MapReadsBack(m: map<Bytes, Bytes>, order: seq<Bytes>)
    requires IsEnumeration(order, m.Keys)
    ensures ToMap(EntryArgs(m, order)) == m
  {
    EntriesPairBack(m, order);
  }

  /** `typed_args` of a request built from a set value gives back the set. */
  lemma SetReadsBack(s: set<Bytes>, order: seq<Bytes>)
    requires IsEnumeration(order, s)
    ensures ToSet(order) == s
  {
  }

  /**
   * The bytes a builder turns into are framed back by the request parser: the
   * command, the key type and every argument in order.
   */
  lemma BytesParseBack(b: Builder, rest: Bytes)
    requires ArgsFit(Held(b))
    requires !IsSimple(b.cmd) && |Held(b)| > 0
    ensures Feed(New, IntoBytes(b) + rest).1.Done?
    ensures Feed(New, IntoBytes(b) + rest).1.request.cmd == b.cmd
    ensures Feed(New, IntoBytes(b) + rest).1.request.keyType == b.keyType
    ensures Args(Feed(New, IntoBytes(b) + rest).1.request, Unbounded, Unbounded) == Some(Held(b))
  {
    FeedEncoded(b.cmd, b.keyType, Held(b), rest);
    FeedEncodedArgs(b.cmd, b.keyType, Held(b), rest);
  }

  /**
   * As written, a map that passes the limit check by its entry count can still
   * overflow: the builder is left holding the limit's worth of arguments, ending
   * partway through the map.
   */
  lemma MapOverfillsAsWritten(b: Builder, m: map<Bytes, Bytes>, order: seq<Bytes>)
    requires IsEnumeration(order, m.Keys)
    requires |Held(b)| + |m| <= MaxArguments < |Held(b)| + 2 * |m|
    ensures AddMapAsWritten(b, m, order).1 == Some(TooManyArguments)
    ensures Held(AddMapAsWritten(b, m, order).0) == (Held(b) + EntryArgs(m, order))[..MaxArguments]
    ensures |Held(AddMapAsWritten(b, m, order).0)| > |Held(b)|
  {
    EnumerationLength(order, m.Keys);
  }

  /** As intended, a map is either pushed whole or refused with the builder unchanged. */
  lemma MapAllOrNothing(b: Builder, m: map<Bytes, Bytes>, order: seq<Bytes>)
    requires IsEnumeration(order, m.Keys)
    ensures AddMap(b, m, order).1.Some? ==> AddMap(b, m, order).0 == b
    ensures AddMap(b, m, order).1.None? ==> Held(AddMap(b, m, order).0) == Held(b) + EntryArgs(m, order)
  {
  }

  /** The builder tests: a key type alone, and `foo` followed by the integer 123. */
  lemma BuilderExamples()
    ensures IntoRequest(WithKeyType(NewBuilder(Decrement), IntegerType)) == Built(None, Some(IntegerType), Decrement)
    ensures var b := AddBytes(WithKeyType(NewBuilder(Set), StringType), [102, 111, 111]).0;
      IntoRequest(AddValue(b, IntegerValue(123), []).0) == Built(Some([[102, 111, 111], I64BE(123)]), Some(StringType), Set)
  {
    var foo: Bytes := [102, 111, 111];
    var b0 := WithKeyType(NewBuilder(Set), StringType);
    var b1 := AddBytes(b0, foo).0;
    assert b1 == b0.(arguments := Some([foo]));
    assert AddValue(b1, IntegerValue(123), []).0 == b1.(arguments := Some([foo] + [I64BE(123)]));
    assert [foo] + [I64BE(123)] == [foo, I64BE(123)];
  }
}
