/**
 * The decoder on the byte strings of the unit tests, including feeds that stop short
 * and resume from the kept context once more bytes have arrived.
 */
module ResponseExamples {
  import opened Bytes
  import opened Values
  import opened Responses
  import opened ResponseDecoder
  import opened ResponseDecoding
  import opened ResponseRoundTrip
  import opened Utf8
  import opened Enumerations
  import Errors

  lemma RemainingBytesExamples()
    ensures RemainingBytes(5, 5, 4) == 4 && RemainingBytes(5, 7, 4) == 2
  {
  }

  /** The decoder resets after a response, and a lone boolean tag waits for its byte. */
  lemma BooleanExample()
    ensures Feed(New, [0]) == (Context(1, BooleanStage), Instr(ReadBytes(1)))
    ensures Feed(Context(1, BooleanStage), [0, 1]) == (New, Instr(Concluded(ValueResponse(BooleanValue(true)))))
    ensures Feed(New, [0, 1]) == (New, Instr(Concluded(ValueResponse(BooleanValue(true)))))
  {
  }

  lemma BytesHeaderExample(b: Bytes)
    requires b == [1, 0, 0, 0, 3]
    ensures Feed(New, b) == (Context(5, BytesStage(3)), Instr(ReadBytes(3)))
  {
    FromBELastByte(b[1..5]);
    FeedNext(New, b, Context(1, TypeInit(BytesTag, 4)));
    FeedNext(Context(1, TypeInit(BytesTag, 4)), b, Context(5, BytesStage(3)));
    FeedWaits(Context(5, BytesStage(3)), b, 3);
  }

  /** Three bytes announced: two of them make the decoder ask for one more, the third concludes. */
  lemma BytesExample(b1: Bytes, b2: Bytes, b3: Bytes)
    requires b1 == [1, 0, 0, 0, 3] && b2 == b1 + [2, 3] && b3 == b2 + [0]
    ensures Feed(New, b1) == (Context(5, BytesStage(3)), Instr(ReadBytes(3)))
    ensures Feed(Context(5, BytesStage(3)), b2) == (Context(5, BytesStage(3)), Instr(ReadBytes(1)))
    ensures Feed(Context(5, BytesStage(3)), b3) == (New, Instr(Concluded(ValueResponse(BytesValue([2, 3, 0])))))
  {
    BytesHeaderExample(b1);
    FeedWaits(Context(5, BytesStage(3)), b2, 1);
    BytesEndExample(b3);
  }

  lemma BytesEndExample(b: Bytes)
    requires b == [1, 0, 0, 0, 3, 2, 3, 0]
    ensures Feed(Context(5, BytesStage(3)), b) == (New, Instr(Concluded(ValueResponse(BytesValue([2, 3, 0])))))
  {
    assert b[5..8] == [2, 3, 0];
    FeedConcluded(Context(5, BytesStage(3)), b, ValueResponse(BytesValue([2, 3, 0])));
  }

  lemma DispatchErrorExamples()
    ensures Feed(New, [9]) == (Context(1, DispatchErrorStage), Instr(ReadBytes(1)))
    ensures Feed(New, [9, 0]) == (New, Instr(Concluded(DispatchErrorResponse(Errors.ArgumentRetrieval))))
    ensures Feed(New, [9, 1]) == (New, Instr(Concluded(DispatchErrorResponse(Errors.KeyRetrieval))))
    ensures Feed(New, [9, 2]) == (New, Instr(Concluded(DispatchErrorResponse(Errors.WrongType))))
  {
  }

  lemma ListFooExample(b: Bytes, foo: Bytes)
    requires b == [4, 0, 2, 0, 0, 0, 3, 102, 111, 111, 0, 0, 0, 3, 98, 97, 114]
    requires foo == [102, 111, 111]
    ensures Step(Context(3, ListStage([], 2)), b) == Next(Context(10, ListStage([foo], 2)))
  {
    FromBELastByte(b[3..7]);
    assert b[7..10] == foo;
    ListItemRead(b, 3, foo, [], 2);
    assert [] + [foo] == [foo];
  }

  lemma ListBarExample(b: Bytes, foo: Bytes, bar: Bytes)
    requires b == [4, 0, 2, 0, 0, 0, 3, 102, 111, 111, 0, 0, 0, 3, 98, 97, 114]
    requires foo == [102, 111, 111] && bar == [98, 97, 114]
    ensures Step(Context(10, ListStage([foo], 2)), b) == Emit(Concluded(ValueResponse(ListValue([foo, bar]))))
  {
    FromBELastByte(b[10..14]);
    assert b[14..17] == bar;
    ListItemRead(b, 10, bar, [foo], 2);
    assert [foo] + [bar] == [foo, bar];
  }

  /** The list `["foo", "bar"]`. */
  lemma ListExample(b: Bytes, foo: Bytes, bar: Bytes)
    requires b == [4, 0, 2, 0, 0, 0, 3, 102, 111, 111, 0, 0, 0, 3, 98, 97, 114]
    requires foo == [102, 111, 111] && bar == [98, 97, 114]
    ensures Feed(New, b) == (New, Instr(Concluded(ValueResponse(ListValue([foo, bar])))))
  {
    FromBELastByte(b[1..3]);
    FeedNext(New, b, Context(1, TypeInit(ListTag, 2)));
    FeedNext(Context(1, TypeInit(ListTag, 2)), b, Context(3, ListStage([], 2)));
    ListFooExample(b, foo);
    ListBarExample(b, foo, bar);
    FeedNext(Context(3, ListStage([], 2)), b, Context(10, ListStage([foo], 2)));
    FeedConcluded(Context(10, ListStage([foo], 2)), b, ValueResponse(ListValue([foo, bar])));
  }

  lemma MapEntryExample(b: Bytes, key: Bytes, val: Bytes)
    requires b == [5, 0, 1, 3, 102, 111, 111, 0, 0, 0, 4, 98, 97, 114, 33]
    requires key == [102, 111, 111] && val == [98, 97, 114, 33]
    ensures Step(Context(3, MapStage(map[], 1)), b) == Emit(Concluded(ValueResponse(MapValue(map[key := val]))))
  {
    assert b[4..7] == key && b[11..15] == val;
    FromBELastByte(b[7..11]);
    MapEntryRead(b, 3, key, val, map[], 1);
  }

  /** The map `{"foo": "bar!"}`. */
  lemma MapExample(b: Bytes, key: Bytes, val: Bytes)
    requires b == [5, 0, 1, 3, 102, 111, 111, 0, 0, 0, 4, 98, 97, 114, 33]
    requires key == [102, 111, 111] && val == [98, 97, 114, 33]
    ensures Feed(New, b) == (New, Instr(Concluded(ValueResponse(MapValue(map[key := val])))))
  {
    FromBELastByte(b[1..3]);
    FeedNext(New, b, Context(1, TypeInit(MapTag, 2)));
    FeedNext(Context(1, TypeInit(MapTag, 2)), b, Context(3, MapStage(map[], 1)));
    MapEntryExample(b, key, val);
    FeedConcluded(Context(3, MapStage(map[], 1)), b, ValueResponse(MapValue(map[key := val])));
  }

  /** A map with no entries concludes on its header alone. */
  lemma EmptyMapExample(b: Bytes)
    requires b == [5, 0, 0]
    ensures Feed(New, b) == (New, Instr(Concluded(ValueResponse(MapValue(map[])))))
  {
    FromBELastByte(b[1..3]);
    FeedNext(New, b, Context(1, TypeInit(MapTag, 2)));
    FeedConcluded(Context(1, TypeInit(MapTag, 2)), b, ValueResponse(MapValue(map[])));
  }

  /** Two elements announced; the second element's length is one byte short. */
  lemma SetExample(b: Bytes)
    requires b == [6, 0, 2, 0, 2, 5, 3, 0]
    ensures Feed(New, b) == (Context(7, SetStage({[5, 3]}, 2)), Instr(ReadBytes(1)))
  {
    FromBELastByte(b[1..3]);
    FeedNext(New, b, Context(1, TypeInit(SetTag, 2)));
    FeedNext(Context(1, TypeInit(SetTag, 2)), b, Context(3, SetStage({}, 2)));
    SetOneStep(b);
    FeedNext(Context(3, SetStage({}, 2)), b, Context(7, SetStage({[5, 3]}, 2)));
    FeedWaits(Context(7, SetStage({[5, 3]}, 2)), b, 1);
  }

  lemma SetOneStep(b: Bytes)
    requires b == [6, 0, 2, 0, 2, 5, 3, 0]
    ensures Step(Context(3, SetStage({}, 2)), b) == Next(Context(7, SetStage({[5, 3]}, 2)))
  {
    FromBELastByte(b[3..5]);
    assert b[5..7] == [5, 3];
    assert {} + {b[5..7]} == {[5, 3]};
  }

  lemma StringHeaderExample(b: Bytes)
    requires b == [7, 0, 0, 0, 3, 97]
    ensures Feed(New, b) == (Context(5, StringStage(3)), Instr(ReadBytes(2)))
  {
    FromBELastByte(b[1..5]);
    FeedNext(New, b, Context(1, TypeInit(StringTag, 4)));
    FeedNext(Context(1, TypeInit(StringTag, 4)), b, Context(5, StringStage(3)));
    FeedWaits(Context(5, StringStage(3)), b, 2);
  }

  lemma StringEndExample(b: Bytes)
    requires b == [7, 0, 0, 0, 3, 97, 98, 99]
    ensures Feed(Context(5, StringStage(3)), b) == (New, Instr(Concluded(ValueResponse(StringValue([97, 98, 99])))))
  {
    assert b[5..8] == [97, 98, 99];
    AsciiValid([97, 98, 99]);
    FeedConcluded(Context(5, StringStage(3)), b, ValueResponse(StringValue([97, 98, 99])));
  }

  /** The string "abc", arriving one byte at a time after its header. */
  lemma StringExample(b1: Bytes, b2: Bytes, b3: Bytes)
    requires b1 == [7, 0, 0, 0, 3, 97] && b2 == b1 + [98] && b3 == b2 + [99]
    ensures Feed(New, b1) == (Context(5, StringStage(3)), Instr(ReadBytes(2)))
    ensures Feed(Context(5, StringStage(3)), b2) == (Context(5, StringStage(3)), Instr(ReadBytes(1)))
    ensures Feed(Context(5, StringStage(3)), b3) == (New, Instr(Concluded(ValueResponse(StringValue([97, 98, 99])))))
  {
    StringHeaderExample(b1);
    FeedWaits(Context(5, StringStage(3)), b2, 1);
    StringEndExample(b3);
  }
}
