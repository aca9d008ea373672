/**
 * The older response encoder, whose writers each build a fresh buffer. The loops
 * over lists, maps and sets produce byte for byte what the newer appending writers
 * produce on an empty buffer.
 */
module ResponsesOld {
  import opened Bytes
  import opened Values
  import opened Utf8
  import opened Enumerations
  import opened Responses
  import opened ResponseDecoding
  import opened Layout
  import Errors
  import ParseErrors

  function WriteBool(value: bool): (r: Bytes)
    ensures r == Responses.WriteBool([], value)
    ensures |r| == 2 && r[0] == TagCode(BooleanTag)
  {
    [TagCode(BooleanTag), if value then 1 else 0]
  }

  function WriteBytes(value: Bytes): (r: Bytes)
    ensures r == Responses.WriteBytes([], value)
    ensures |r| == 5 + |value|
  {
    [TagCode(BytesTag)] + U32BE(AsU32(|value|)) + value
  }

  function WriteDispatchError(e: Errors.DispatchError): (r: Bytes)
    ensures r == Responses.WriteDispatchError([], e)
    ensures |r| == 2 && r[1] == Errors.Code(e)
  {
    [TagCode(DispatchErrorTag), Errors.Code(e)]
  }

  function WriteParseError(e: ParseErrors.ParseError): (r: Bytes)
    ensures r == Responses.WriteParseError([], e)
    ensures |r| == 2 && r[1] == ParseErrors.Code(e)
  {
    [TagCode(ParseErrorTag), ParseErrors.Code(e)]
  }

  function WriteFloat(bits: uint64): (r: Bytes)
    ensures r == Responses.WriteFloat([], bits)
    ensures |r| == 9
  {
    [TagCode(FloatTag)] + BE(bits, 8)
  }

  function WriteInt(value: int64): (r: Bytes)
    ensures r == Responses.WriteInt([], value)
    ensures |r| == 9 && I64FromBE(r[1..]) == value
  {
    [TagCode(IntegerTag)] + I64BE(value)
  }

  function WriteStr(value: Utf8String): (r: Bytes)
    ensures r == Responses.WriteStr([], value)
    ensures |r| == 5 + |value|
  {
    [TagCode(StringTag)] + U32BE(AsU32(|value|)) + value
  }

  /** The list writer: the count, then each item's length and bytes in order. */
  method WriteList(items: seq<Bytes>) returns (buf: Bytes)
    ensures buf == Responses.WriteList([], items)
  {
    var header := [TagCode(ListTag)] + U16BE(AsU16(|items|));
    buf := header;
    var i := 0;
    while i < |items|
      invariant i <= |items|
      invariant buf == header + ListItems(items[..i])
    {
      ListItemsGrow(items, i);
      AppendAssoc(header, ListItems(items[..i]), ItemBytes(items[i]));
      buf := buf + ItemBytes(items[i]);
      i := i + 1;
    }
    assert items[..i] == items;
    AppendEmpty(header + ListItems(items));
  }

  /** The map writer: the count, then each entry in the map's iteration order `order`. */
  method WriteMap(m: map<Bytes, Bytes>, order: seq<Bytes>) returns (buf: Bytes)
    requires IsEnumeration(order, m.Keys)
    ensures buf == Responses.WriteMap([], m, order)
  {
    var header := [TagCode(MapTag)] + U16BE(AsU16(|m|));
    buf := header;
    var i := 0;
    while i < |order|
      invariant i <= |order|
      invariant buf == header + MapEntries(m, order[..i])
    {
      var key := order[i];
      assert key in m;
      MapEntriesGrow(m, order, i);
      AppendAssoc(header, MapEntries(m, order[..i]), EntryBytes(key, m[key]));
      buf := buf + EntryBytes(key, m[key]);
      i := i + 1;
    }
    assert order[..i] == order;
    AppendEmpty(header + MapEntries(m, order));
  }

  /** The set writer: the count, then each element's length and bytes in the iteration order `order`. */
  method WriteSet(s: set<Bytes>, order: seq<Bytes>) returns (buf: Bytes)
    requires IsEnumeration(order, s)
    ensures buf == Responses.WriteSet([], s, order)
  {
    var header := [TagCode(SetTag)] + U16BE(AsU16(|s|));
    buf := header;
    var i := 0;
    while i < |order|
      invariant i <= |order|
      invariant buf == header + SetElems(order[..i])
    {
      SetElemsGrow(order, i);
      AppendAssoc(header, SetElems(order[..i]), ElemBytes(order[i]));
      buf := buf + ElemBytes(order[i]);
      i := i + 1;
    }
    assert order[..i] == order;
    AppendEmpty(header + SetElems(order));
  }

  /** `Response::into_bytes`: the writer chosen by the variant, identical to the newer `as_bytes`. */
  method IntoBytes(resp: Response, order: seq<Bytes>) returns (buf: Bytes)
    requires Visits(resp, order)
    ensures buf == Responses.AsBytes(resp, order)
  {
    match resp
    case DispatchErrorResponse(e) => buf := WriteDispatchError(e);
    case ParseErrorResponse(e) => buf := WriteParseError(e);
    case ValueResponse(v) =>
      match v
      case BooleanValue(b) => buf := WriteBool(b);
      case BytesValue(b) => buf := WriteBytes(b);
      case FloatValue(bits) => buf := WriteFloat(bits);
      case IntegerValue(i) => buf := WriteInt(i);
      case ListValue(items) => buf := WriteList(items);
      case MapValue(m) => buf := WriteMap(m, order);
      case SetValue(s) => buf := WriteSet(s, order);
      case StringValue(s) => buf := WriteStr(s);
  }
}
