/**
 * The decoder inverts `Response::as_bytes` for every response it can read back, and
 * for exactly those: an empty list or set and a dispatch error without a
 * discriminant are written but never decoded.
 */
module ResponseRoundTrip {
  import opened Bytes
  import opened Values
  import opened Utf8
  import opened Enumerations
  import opened Responses
  import opened ResponseDecoder
  import opened ResponseDecoding
  import opened Layout
  import Errors
  import ParseErrors

  /** The responses whose encoding the decoder reads back. */
  predicate Decodable(resp: Response) {
    match resp
    case DispatchErrorResponse(e) => Errors.IsCoded(e)
    case ValueResponse(ListValue(items)) => |items| > 0
    case ValueResponse(SetValue(s)) => |s| > 0
    case _ => true
  }

  /** A written part followed by anything is held where it was written. */
  lemma HeldBy(w: Bytes, rest: Bytes, at: nat, part: Bytes)
    requires at <= |w| && w[at..] == part
    ensures HoldsAt(w + rest, at, part)
  {
    HoldsAtMeans(w + rest, at, part);
    assert (w + rest)[at..at + |part|] == w[at..];
  }

  /** Feeding from a fresh context reads the tag and moves to `stage` at index 1. */
  lemma TagRead(buf: Bytes, stage: Stage)
    requires |buf| > 0 && buf[0] < 10
    requires stage == match TagTryFromU8(buf[0]).value
      case BooleanTag => BooleanStage
      case FloatTag => FloatStage
      case IntegerTag => IntegerStage
      case ListTag => TypeInit(ListTag, 2)
      case MapTag => TypeInit(MapTag, 2)
      case SetTag => TypeInit(SetTag, 2)
      case BytesTag => TypeInit(BytesTag, 4)
      case StringTag => TypeInit(StringTag, 4)
      case DispatchErrorTag => DispatchErrorStage
      case ParseErrorTag => ParseErrorStage
    ensures Feed(New, buf) == Feed(Context(1, stage), buf)
  {
    FeedNext(New, buf, Context(1, stage));
  }

  lemma BoolDecodes(b: bool, rest: Bytes)
    ensures Feed(New, WriteBool([], b) + rest) == (New, Instr(Concluded(ValueResponse(BooleanValue(b)))))
  {
    var buf := WriteBool([], b) + rest;
    TagRead(buf, BooleanStage);
    FeedConcluded(Context(1, BooleanStage), buf, ValueResponse(BooleanValue(b)));
  }

  lemma DispatchErrorDecodes(e: Errors.DispatchError, rest: Bytes)
    requires Errors.IsCoded(e)
    ensures Feed(New, WriteDispatchError([], e) + rest) == (New, Instr(Concluded(DispatchErrorResponse(e))))
  {
    var buf := WriteDispatchError([], e) + rest;
    TagRead(buf, DispatchErrorStage);
    FeedConcluded(Context(1, DispatchErrorStage), buf, DispatchErrorResponse(e));
  }

  lemma ParseErrorDecodes(e: ParseErrors.ParseError, rest: Bytes)
    ensures Feed(New, WriteParseError([], e) + rest) == (New, Instr(Concluded(ParseErrorResponse(e))))
  {
    var buf := WriteParseError([], e) + rest;
    TagRead(buf, ParseErrorStage);
    FeedConcluded(Context(1, ParseErrorStage), buf, ParseErrorResponse(e));
  }

  lemma FloatDecodes(bits: uint64, rest: Bytes)
    ensures Feed(New, WriteFloat([], bits) + rest) == (New, Instr(Concluded(ValueResponse(FloatValue(bits)))))
  {
    var w := WriteFloat([], bits);
    var buf := w + rest;
    assert buf[1..9] == w[1..];
    TagRead(buf, FloatStage);
    FeedConcluded(Context(1, FloatStage), buf, ValueResponse(FloatValue(bits)));
  }

  lemma IntDecodes(value: int64, rest: Bytes)
    ensures Feed(New, WriteInt([], value) + rest) == (New, Instr(Concluded(ValueResponse(IntegerValue(value)))))
  {
    var w := WriteInt([], value);
    var buf := w + rest;
    assert buf[1..9] == w[1..];
    TagRead(buf, IntegerStage);
    FeedConcluded(Context(1, IntegerStage), buf, ValueResponse(IntegerValue(value)));
  }

  /** Every bytes payload reads back, the empty one included. */
  lemma BytesDecodes(b: Bytes, rest: Bytes)
    requires FitsU32(b)
    ensures Feed(New, WriteBytes([], b) + rest) == (New, Instr(Concluded(ValueResponse(BytesValue(b)))))
  {
    var w := WriteBytes([], b);
    var buf := w + rest;
    assert buf[1..5] == w[1..5] && buf[5..5 + |b|] == w[5..];
    TagRead(buf, TypeInit(BytesTag, 4));
    FeedNext(Context(1, TypeInit(BytesTag, 4)), buf, Context(5, BytesStage(|b|)));
    FeedConcluded(Context(5, BytesStage(|b|)), buf, ValueResponse(BytesValue(b)));
  }

  lemma StringDecodes(s: Utf8String, rest: Bytes)
    requires FitsU32(s)
    ensures Feed(New, WriteStr([], s) + rest) == (New, Instr(Concluded(ValueResponse(StringValue(s)))))
  {
    var w := WriteStr([], s);
    var buf := w + rest;
    assert buf[1..5] == w[1..5] && buf[5..5 + |s|] == w[5..];
    TagRead(buf, TypeInit(StringTag, 4));
    if |s| == 0 {
      FeedConcluded(Context(1, TypeInit(StringTag, 4)), buf, ValueResponse(StringValue(s)));
    } else {
      StringHeaderRead(buf, s);
      StringPayloadRead(buf, s);
    }
  }

  lemma StringHeaderRead(buf: Bytes, s: Utf8String)
    requires 0 < |s| < 0x1_0000_0000 && |buf| >= 5 + |s| && FromBE(buf[1..5]) == |s|
    ensures Feed(Context(1, TypeInit(StringTag, 4)), buf) == Feed(Context(5, StringStage(|s|)), buf)
  {
    var header := buf[1..5];
    assert U32FromBE(header) == |s|;
    assert Step(Context(1, TypeInit(StringTag, 4)), buf) == Next(Context(5, StringStage(|s|)));
    FeedNext(Context(1, TypeInit(StringTag, 4)), buf, Context(5, StringStage(|s|)));
  }

  lemma StringPayloadRead(buf: Bytes, s: Utf8String)
    requires 0 < |s| < 0x1_0000_0000 && |buf| >= 5 + |s| && buf[5..5 + |s|] == s
    ensures Feed(Context(5, StringStage(|s|)), buf) == (New, Instr(Concluded(ValueResponse(StringValue(s)))))
  {
    assert Step(Context(5, StringStage(|s|)), buf) == Emit(Concluded(ValueResponse(StringValue(s))));
    FeedConcluded(Context(5, StringStage(|s|)), buf, ValueResponse(StringValue(s)));
  }

  lemma ListRoundTrip(items: seq<Bytes>, rest: Bytes)
    requires ListFits(items) && |items| > 0
    ensures Feed(New, WriteList([], items) + rest) == (New, Instr(Concluded(ValueResponse(ListValue(items)))))
  {
    var w := WriteList([], items);
    var buf := w + rest;
    assert buf[1..3] == w[1..3];
    HeldBy(w, rest, 3, ListItems(items));
    TagRead(buf, TypeInit(ListTag, 2));
    FeedNext(Context(1, TypeInit(ListTag, 2)), buf, Context(3, ListStage([], |items|)));
    ListDecodes(buf, 3, items, |items|);
  }

  lemma MapRoundTrip(m: map<Bytes, Bytes>, order: seq<Bytes>, rest: Bytes)
    requires MapFits(m) && IsEnumeration(order, m.Keys)
    ensures Feed(New, WriteMap([], m, order) + rest) == (New, Instr(Concluded(ValueResponse(MapValue(m)))))
  {
    var w := WriteMap([], m, order);
    var buf := w + rest;
    assert buf[1..3] == w[1..3];
    TagRead(buf, TypeInit(MapTag, 2));
    EnumerationLength(order, m.Keys);
    if |m| == 0 {
      FeedConcluded(Context(1, TypeInit(MapTag, 2)), buf, ValueResponse(MapValue(m)));
    } else {
      HeldBy(w, rest, 3, MapEntries(m, order));
      FeedNext(Context(1, TypeInit(MapTag, 2)), buf, Context(3, MapStage(map[], |m|)));
      MapDecodes(buf, 3, m, order);
    }
  }

  lemma SetRoundTrip(s: set<Bytes>, order: seq<Bytes>, rest: Bytes)
    requires SetFits(s) && IsEnumeration(order, s) && |s| > 0
    ensures Feed(New, WriteSet([], s, order) + rest) == (New, Instr(Concluded(ValueResponse(SetValue(s)))))
  {
    var w := WriteSet([], s, order);
    var buf := w + rest;
    assert buf[1..3] == w[1..3];
    EnumerationLength(order, s);
    HeldBy(w, rest, 3, SetElems(order));
    TagRead(buf, TypeInit(SetTag, 2));
    FeedNext(Context(1, TypeInit(SetTag, 2)), buf, Context(3, SetStage({}, |s|)));
    SetDecodes(buf, 3, s, order);
  }

  /**
   * Decoding inverts encoding: feeding a fresh context the bytes of a decodable response,
   * followed by anything, concludes that very response and resets the context.
   */
  lemma AsBytesDecodes(resp: Response, order: seq<Bytes>, rest: Bytes)
    requires Visits(resp, order) && Fits(resp) && Decodable(resp)
    ensures Feed(New, Responses.AsBytes(resp, order) + rest) == (New, Instr(Concluded(resp)))
  {
    match resp
    case DispatchErrorResponse(e) => DispatchErrorDecodes(e, rest);
    case ParseErrorResponse(e) => ParseErrorDecodes(e, rest);
    case ValueResponse(v) =>
      match v
      case BooleanValue(b) => BoolDecodes(b, rest);
      case BytesValue(b) => BytesDecodes(b, rest);
      case FloatValue(bits) => FloatDecodes(bits, rest);
      case IntegerValue(i) => IntDecodes(i, rest);
      case ListValue(items) => ListRoundTrip(items, rest);
      case MapValue(m) => MapRoundTrip(m, order, rest);
      case SetValue(s) => SetRoundTrip(s, order, rest);
      case StringValue(s) => StringDecodes(s, rest);
  }

  // The responses the decoder does not read back.

  /** A step that asks for more bytes ends the feed and keeps the context. */
  lemma FeedWaits(ctx: Context, buf: Bytes, n: nat)
    requires Step(ctx, buf) == Emit(ReadBytes(n))
    ensures Feed(ctx, buf) == (ctx, Instr(ReadBytes(n)))
  {
  }

  /** An empty list is still read as if one item followed: the decoder asks for its length. */
  lemma EmptyListWaits(buf: Bytes)
    requires buf == WriteList([], [])
    ensures Feed(New, buf) == (Context(3, ListStage([], 0)), Instr(ReadBytes(4)))
  {
    EmptyListHeader(buf);
    assert Step(Context(3, ListStage([], 0)), buf) == Emit(ReadBytes(4));
    FeedWaits(Context(3, ListStage([], 0)), buf, 4);
  }

  lemma EmptyListHeader(buf: Bytes)
    requires buf == WriteList([], [])
    ensures |buf| == 3 && Feed(New, buf) == Feed(Context(3, ListStage([], 0)), buf)
  {
    assert |buf| == 3;
    TagRead(buf, TypeInit(ListTag, 2));
    FeedNext(Context(1, TypeInit(ListTag, 2)), buf, Context(3, ListStage([], 0)));
  }

  /** An empty set is still read as if one element followed: the decoder asks for its length. */
  lemma EmptySetWaits(buf: Bytes)
    requires buf == WriteSet([], {}, [])
    ensures Feed(New, buf) == (Context(3, SetStage({}, 0)), Instr(ReadBytes(2)))
  {
    EmptySetHeader(buf);
    assert Step(Context(3, SetStage({}, 0)), buf) == Emit(ReadBytes(2));
    FeedWaits(Context(3, SetStage({}, 0)), buf, 2);
  }

  lemma EmptySetHeader(buf: Bytes)
    requires buf == WriteSet([], {}, [])
    ensures |buf| == 3 && Feed(New, buf) == Feed(Context(3, SetStage({}, 0)), buf)
  {
    assert |buf| == 3;
    TagRead(buf, TypeInit(SetTag, 2));
    FeedNext(Context(1, TypeInit(SetTag, 2)), buf, Context(3, SetStage({}, 0)));
  }

  /** A dispatch error without a discriminant fails the decoder's unwrap. */
  lemma UncodedDispatchErrorPanics(e: Errors.DispatchError, rest: Bytes)
    requires !Errors.IsCoded(e)
    ensures Feed(New, WriteDispatchError([], e) + rest).1 == Panicked
  {
    var buf := WriteDispatchError([], e) + rest;
    TagRead(buf, DispatchErrorStage);
  }

  /** The decoder reads back exactly the decodable responses. */
  lemma DecodesExactly(resp: Response, order: seq<Bytes>)
    requires Visits(resp, order) && Fits(resp)
    ensures Feed(New, Responses.AsBytes(resp, order)) == (New, Instr(Concluded(resp))) <==> Decodable(resp)
  {
    if Decodable(resp) {
      AsBytesDecodes(resp, order, []);
      assert Responses.AsBytes(resp, order) + [] == Responses.AsBytes(resp, order);
    } else {
      match resp
      case DispatchErrorResponse(e) =>
        UncodedDispatchErrorPanics(e, []);
        assert WriteDispatchError([], e) + [] == WriteDispatchError([], e);
      case ValueResponse(ListValue(items)) =>
        EmptyListWaits(Responses.AsBytes(resp, order));
      case ValueResponse(SetValue(s)) =>
        EnumerationLength(order, s);
        EmptySetWaits(Responses.AsBytes(resp, order));
    }
  }

  /** Feeding a fresh context nothing asks for the type byte. */
  lemma FeedEmpty()
    ensures Feed(New, []) == (New, Instr(ReadBytes(1)))
  {
  }

  /** A first byte that names no response type fails the feed and keeps the context. */
  lemma InvalidTagFails(buf: Bytes)
    requires |buf| > 0 && buf[0] >= 10
    ensures Feed(New, buf) == (New, Failed(ResponseTypeInvalid))
  {
  }
}
