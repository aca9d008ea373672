/**
 * The typed response encoding: a type tag followed by the value's payload, with
 * big-endian length prefixes.
 */
module Responses {
  import opened Bytes
  import opened Wrappers
  import opened Values
  import opened Utf8
  import opened Enumerations
  import opened Layout
  import Errors
  import ParseErrors

  datatype ResponseType =
    | BooleanTag | BytesTag | FloatTag | IntegerTag | ListTag
    | MapTag | SetTag | StringTag | ParseErrorTag | DispatchErrorTag

  function TagCode(t: ResponseType): uint8 {
    match t
    case BooleanTag => 0
    case BytesTag => 1
    case FloatTag => 2
    case IntegerTag => 3
    case ListTag => 4
    case MapTag => 5
    case SetTag => 6
    case StringTag => 7
    case ParseErrorTag => 8
    case DispatchErrorTag => 9
  }

  /** `ResponseType::try_from(u8)`. */
  function TagTryFromU8(b: uint8): (r: Option<ResponseType>)
    ensures r.Some? <==> b < 10
    ensures r.Some? ==> TagCode(r.value) == b
  {
    match b
    case 0 => Some(BooleanTag)
    case 1 => Some(BytesTag)
    case 2 => Some(FloatTag)
    case 3 => Some(IntegerTag)
    case 4 => Some(ListTag)
    case 5 => Some(MapTag)
    case 6 => Some(SetTag)
    case 7 => Some(StringTag)
    case 8 => Some(ParseErrorTag)
    case 9 => Some(DispatchErrorTag)
    case _ => None
  }

  lemma TagRoundTrip(t: ResponseType)
    ensures TagTryFromU8(TagCode(t)) == Some(t)
  {
  }

  datatype Response =
    | DispatchErrorResponse(dispatchError: Errors.DispatchError)
    | ParseErrorResponse(parseError: ParseErrors.ParseError)
    | ValueResponse(value: Value)

  // Lengths the wire can carry without the truncating length casts losing information.

  predicate FitsU32(b: Bytes) { |b| < 0x1_0000_0000 }

  predicate ListFits(items: seq<Bytes>) {
    |items| < 0x1_0000 && forall i :: 0 <= i < |items| ==> FitsU32(items[i])
  }

  predicate MapFits(m: map<Bytes, Bytes>) {
    |m| < 0x1_0000 && forall k :: k in m ==> |k| < 256 && FitsU32(m[k])
  }

  predicate SetFits(s: set<Bytes>) {
    |s| < 0x1_0000 && forall e :: e in s ==> |e| < 0x1_0000
  }

  /** One list item on the wire: its length cast to u32, then the item. */
  function ItemBytes(item: Bytes): (r: Bytes)
    ensures |r| == 4 + |item|
    ensures FromBE(r[..4]) == AsU32(|item|) && r[4..] == item
  {
    U32BE(AsU32(|item|)) + item
  }

  /** One map entry on the wire: the key length cast to u8, the key, the value length cast to u32, the value. */
  function EntryBytes(key: Bytes, value: Bytes): (r: Bytes)
    ensures |r| == 5 + |key| + |value|
    ensures r[0] == AsU8(|key|) && r[1..1 + |key|] == key
    ensures FromBE(r[1 + |key|..5 + |key|]) == AsU32(|value|) && r[5 + |key|..] == value
  {
    var r := [AsU8(|key|)] + key + U32BE(AsU32(|value|)) + value;
    assert r[1 + |key|..5 + |key|] == U32BE(AsU32(|value|));
    r
  }

  /** One set element on the wire: its length cast to u16, then the element. */
  function ElemBytes(elem: Bytes): (r: Bytes)
    ensures |r| == 2 + |elem|
    ensures FromBE(r[..2]) == AsU16(|elem|) && r[2..] == elem
  {
    U16BE(AsU16(|elem|)) + elem
  }

  /** The items of a list, framed one after another in order. */
  function ListItems(items: seq<Bytes>): (r: Bytes)
  {
    if |items| == 0 then [] else ItemBytes(items[0]) + ListItems(items[1..])
  }

  lemma {:induction false} ListItemsAppend(a: seq<Bytes>, b: seq<Bytes>)
    ensures ListItems(a + b) == ListItems(a) + ListItems(b)
    decreases |a|
  {
    if |a| == 0 {
      assert a + b == b;
    } else {
      assert (a + b)[0] == a[0] && (a + b)[1..] == a[1..] + b;
      ListItemsAppend(a[1..], b);
    }
  }

  lemma ListItemsOne(x: Bytes)
    ensures ListItems([x]) == ItemBytes(x)
  {
    var one := [x];
    assert one[1..] == [];
  }

  /** The framing of a list splits around its `i`-th item. */
  lemma ListItemsAt(items: seq<Bytes>, i: nat)
    requires i < |items|
    ensures ListItems(items) == ListItems(items[..i]) + ItemBytes(items[i]) + ListItems(items[i + 1..])
    ensures ListItems(items[..i + 1]) == ListItems(items[..i]) + ItemBytes(items[i])
  {
    ListItemsSplit(items, i);
    ListItemsGrow(items, i);
  }

  lemma ListItemsSplit(items: seq<Bytes>, i: nat)
    requires i < |items|
    ensures ListItems(items) == ListItems(items[..i]) + ItemBytes(items[i]) + ListItems(items[i + 1..])
  {
    SplitAround(items, i);
    ListItemsAppend(items[..i], [items[i]] + items[i + 1..]);
    ListItemsAppend([items[i]], items[i + 1..]);
    ListItemsOne(items[i]);
    AppendAssoc(ListItems(items[..i]), ItemBytes(items[i]), ListItems(items[i + 1..]));
  }

  lemma ListItemsGrow(items: seq<Bytes>, i: nat)
    requires i < |items|
    ensures ListItems(items[..i + 1]) == ListItems(items[..i]) + ItemBytes(items[i])
  {
    assert items[..i + 1] == items[..i] + [items[i]];
    ListItemsAppend(items[..i], [items[i]]);
    ListItemsOne(items[i]);
  }

  /** Where the `i`-th item lies, and where the next one starts. */
  lemma ListPosition(buf: Bytes, base: nat, items: seq<Bytes>, i: nat)
    requires HoldsAt(buf, base, ListItems(items)) && i < |items|
    ensures HoldsAt(buf, base + |ListItems(items[..i])|, ItemBytes(items[i]))
    ensures |ListItems(items[..i + 1])| == |ListItems(items[..i])| + 4 + |items[i]|
  {
    ListItemsAt(items, i);
    HoldsAtMiddle(buf, base, ListItems(items[..i]), ItemBytes(items[i]), ListItems(items[i + 1..]));
  }

  /** The entries of a map, framed in the iteration order `order`; keys outside the map contribute nothing. */
  function MapEntries(m: map<Bytes, Bytes>, order: seq<Bytes>): (r: Bytes)
  {
    if |order| == 0 then []
    else if order[0] in m then EntryBytes(order[0], m[order[0]]) + MapEntries(m, order[1..])
    else MapEntries(m, order[1..])
  }

  /** The elements of a set, framed in the iteration order `order`. */
  function SetElems(order: seq<Bytes>): (r: Bytes)
  {
    if |order| == 0 then [] else ElemBytes(order[0]) + SetElems(order[1..])
  }

  // The writers each append to `to` and leave its earlier contents intact.

  function WriteBool(to: Bytes, value: bool): (r: Bytes)
    ensures |r| == |to| + 2 && r[..|to|] == to
    ensures r[|to|] == TagCode(BooleanTag)
    ensures r[|to| + 1] == 1 <==> value
    ensures r[|to| + 1] <= 1
  {
    to + [TagCode(BooleanTag), if value then 1 else 0]
  }

  function WriteBytes(to: Bytes, value: Bytes): (r: Bytes)
    ensures |r| == |to| + 5 + |value| && r[..|to|] == to
    ensures r[|to|] == TagCode(BytesTag)
    ensures FromBE(r[|to| + 1..|to| + 5]) == AsU32(|value|)
    ensures r[|to| + 5..] == value
  {
    var r := to + [TagCode(BytesTag)] + U32BE(AsU32(|value|)) + value;
    assert r[|to| + 1..|to| + 5] == U32BE(AsU32(|value|));
    r
  }

  function WriteDispatchError(to: Bytes, e: Errors.DispatchError): (r: Bytes)
    ensures |r| == |to| + 2 && r[..|to|] == to
    ensures r[|to|] == TagCode(DispatchErrorTag)
    ensures Errors.IsCoded(e) ==> Errors.TryFromU8(r[|to| + 1]) == Some(e)
  {
    to + [TagCode(DispatchErrorTag), Errors.Code(e)]
  }

  function WriteParseError(to: Bytes, e: ParseErrors.ParseError): (r: Bytes)
    ensures |r| == |to| + 2 && r[..|to|] == to
    ensures r[|to|] == TagCode(ParseErrorTag)
    ensures ParseErrors.TryFromU8(r[|to| + 1]) == Some(e)
  {
    to + [TagCode(ParseErrorTag), ParseErrors.Code(e)]
  }

  /** The float's raw bit pattern, big-endian. */
  function WriteFloat(to: Bytes, bits: uint64): (r: Bytes)
    ensures |r| == |to| + 9 && r[..|to|] == to
    ensures r[|to|] == TagCode(FloatTag)
    ensures FromBE(r[|to| + 1..]) == bits
  {
    FromBEOfBE(bits, 8);
    var r := to + [TagCode(FloatTag)] + BE(bits, 8);
    assert r[|to| + 1..] == BE(bits, 8);
    r
  }

  function WriteInt(to: Bytes, value: int64): (r: Bytes)
    ensures |r| == |to| + 9 && r[..|to|] == to
    ensures r[|to|] == TagCode(IntegerTag)
    ensures I64FromBE(r[|to| + 1..]) == value
  {
    var r := to + [TagCode(IntegerTag)] + I64BE(value);
    assert r[|to| + 1..] == I64BE(value);
    I64RoundTrip(value);
    r
  }

  function WriteList(to: Bytes, items: seq<Bytes>): (r: Bytes)
    ensures |r| >= |to| + 3 && r[..|to|] == to
    ensures r[|to|] == TagCode(ListTag)
    ensures FromBE(r[|to| + 1..|to| + 3]) == AsU16(|items|)
    ensures r[|to| + 3..] == ListItems(items)
  {
    var r := to + [TagCode(ListTag)] + U16BE(AsU16(|items|)) + ListItems(items);
    assert r[|to| + 1..|to| + 3] == U16BE(AsU16(|items|));
    assert r[|to| + 3..] == ListItems(items);
    r
  }

  function WriteMap(to: Bytes, m: map<Bytes, Bytes>, order: seq<Bytes>): (r: Bytes)
    requires IsEnumeration(order, m.Keys)
    ensures |r| >= |to| + 3 && r[..|to|] == to
    ensures r[|to|] == TagCode(MapTag)
    ensures FromBE(r[|to| + 1..|to| + 3]) == AsU16(|m|)
    ensures r[|to| + 3..] == MapEntries(m, order)
  {
    var r := to + [TagCode(MapTag)] + U16BE(AsU16(|m|)) + MapEntries(m, order);
    assert r[|to| + 1..|to| + 3] == U16BE(AsU16(|m|));
    assert r[|to| + 3..] == MapEntries(m, order);
    r
  }

  function WriteSet(to: Bytes, s: set<Bytes>, order: seq<Bytes>): (r: Bytes)
    requires IsEnumeration(order, s)
    ensures |r| >= |to| + 3 && r[..|to|] == to
    ensures r[|to|] == TagCode(SetTag)
    ensures FromBE(r[|to| + 1..|to| + 3]) == AsU16(|s|)
    ensures r[|to| + 3..] == SetElems(order)
  {
    var r := to + [TagCode(SetTag)] + U16BE(AsU16(|s|)) + SetElems(order);
    assert r[|to| + 1..|to| + 3] == U16BE(AsU16(|s|));
    assert r[|to| + 3..] == SetElems(order);
    r
  }

  function WriteStr(to: Bytes, value: Utf8String): (r: Bytes)
    ensures |r| == |to| + 5 + |value| && r[..|to|] == to
    ensures r[|to|] == TagCode(StringTag)
    ensures FromBE(r[|to| + 1..|to| + 5]) == AsU32(|value|)
    ensures r[|to| + 5..] == value
  {
    var r := to + [TagCode(StringTag)] + U32BE(AsU32(|value|)) + value;
    assert r[|to| + 1..|to| + 5] == U32BE(AsU32(|value|));
    r
  }

  /** `order` is the iteration order of the map or set the response carries, if any. */
  predicate Visits(resp: Response, order: seq<Bytes>) {
    match resp
    case ValueResponse(MapValue(m)) => IsEnumeration(order, m.Keys)
    case ValueResponse(SetValue(s)) => IsEnumeration(order, s)
    case _ => true
  }

  /** Every length the response carries survives its truncating cast. */
  predicate Fits(resp: Response) {
    match resp
    case ValueResponse(BytesValue(b)) => FitsU32(b)
    case ValueResponse(StringValue(s)) => FitsU32(s)
    case ValueResponse(ListValue(items)) => ListFits(items)
    case ValueResponse(MapValue(m)) => MapFits(m)
    case ValueResponse(SetValue(s)) => SetFits(s)
    case _ => true
  }

  /** The response type tag each value is written under. */
  function ValueTag(v: Value): ResponseType {
    match v
    case BooleanValue(_) => BooleanTag
    case BytesValue(_) => BytesTag
    case FloatValue(_) => FloatTag
    case IntegerValue(_) => IntegerTag
    case ListValue(_) => ListTag
    case MapValue(_) => MapTag
    case SetValue(_) => SetTag
    case StringValue(_) => StringTag
  }

  /** The response type tag each response is written under. */
  function TagOf(resp: Response): ResponseType {
    match resp
    case DispatchErrorResponse(_) => DispatchErrorTag
    case ParseErrorResponse(_) => ParseErrorTag
    case ValueResponse(v) => ValueTag(v)
  }

  /** The writer of a value's own variant, appending to `to`. */
  function WriteValue(to: Bytes, v: Value, order: seq<Bytes>): (r: Bytes)
    requires Visits(ValueResponse(v), order)
    ensures |r| >= |to| + 2 && r[..|to|] == to && r[|to|] == TagCode(ValueTag(v))
  {
    match v
    case BooleanValue(b) => WriteBool(to, b)
    case BytesValue(b) => WriteBytes(to, b)
    case FloatValue(bits) => WriteFloat(to, bits)
    case IntegerValue(i) => WriteInt(to, i)
    case ListValue(items) => WriteList(to, items)
    case MapValue(m) => WriteMap(to, m, order)
    case SetValue(s) => WriteSet(to, s, order)
    case StringValue(s) => WriteStr(to, s)
  }

  /** `Response::as_bytes`: a fresh buffer holding the writer chosen by the variant. */
  function AsBytes(resp: Response, order: seq<Bytes>): (r: Bytes)
    requires Visits(resp, order)
    ensures |r| >= 2 && r[0] == TagCode(TagOf(resp))
  {
    match resp
    case DispatchErrorResponse(e) => WriteDispatchError([], e)
    case ParseErrorResponse(e) => WriteParseError([], e)
    case ValueResponse(v) => WriteValue([], v, order)
  }

  /** The byte layouts the unit tests fix. */
  lemma BoolExamples()
    ensures WriteBool([], true) == [0, 1] && WriteBool([], false) == [0, 0]
  {
  }

  lemma IntExamples(minusSeven: Bytes, large: Bytes)
    requires minusSeven == [3, 0xff, 0xff, 0xff, 0xff, 0xff, 0xff, 0xff, 0xf9]
    requires large == [3, 0, 0, 0, 0, 0, 1, 10, 29]
    ensures WriteInt([], -7) == minusSeven
    ensures WriteInt([], 68125) == large
  {
    I64Examples();
    assert WriteInt([], -7) == [3] + I64BE(-7);
    assert WriteInt([], 68125) == [3] + I64BE(68125);
  }

  lemma EmptyExamples()
    ensures WriteBytes([], []) == [1, 0, 0, 0, 0]
    ensures WriteMap([], map[], []) == [5, 0, 0]
  {
    assert WriteBytes([], []) == [1, 0, 0, 0, 0] by {
      BEZeroEight();
      assert U32BE(AsU32(0)) == [0, 0, 0, 0];
      assert WriteBytes([], []) == [TagCode(BytesTag)] + [0, 0, 0, 0];
    }
    assert WriteMap([], map[], []) == [5, 0, 0] by {
      assert U16BE(AsU16(0)) == [0, 0];
      assert MapEntries(map[], []) == [];
      assert WriteMap([], map[], []) == [TagCode(MapTag)] + [0, 0];
    }
  }
}
