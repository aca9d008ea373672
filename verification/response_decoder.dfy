/**
 * The incremental response decoder. A context is fed the whole buffer received so
 * far; it either concludes with a response, or says how many more bytes it needs
 * before it can make progress, keeping its partial progress for the next feed.
 */
module ResponseDecoder {
  import opened Bytes
  import opened Wrappers
  import opened Values
  import opened Utf8
  import opened Enumerations
  import opened Responses
  import Errors
  import ParseErrors

  datatype DecodeError =
    | DispatchErrorInvalid
    | ParseErrorInvalid
    | PayloadTooLarge
    | ResponseTypeInvalid
    | StringInvalid

  datatype Stage =
    | Init
    | TypeInit(kind: ResponseType, readLen: nat)
    | BooleanStage
    | BytesStage(bytesLen: uint32)
    | FloatStage
    | IntegerStage
    | ListStage(args: seq<Bytes>, listLen: uint16)
    | MapStage(entries: map<Bytes, Bytes>, mapLen: uint16)
    | DispatchErrorStage
    | ParseErrorStage
    | SetStage(elems: set<Bytes>, setLen: uint16)
    | StringStage(stringLen: uint32)

  datatype Context = Context(idx: nat, stage: Stage)

  /** `Context::new()` and the state `reset()` returns to. */
  const New: Context := Context(0, Init)

  datatype Instruction = Concluded(response: Response) | ReadBytes(amount: nat)

  /** What one stage does: move on, hand an instruction back, fail, or panic. */
  datatype Action =
    | Next(next: Context)
    | Emit(instruction: Instruction)
    | Fail(error: DecodeError)
    | Panic

  /** The result of `feed`; `Panicked` stands for a panic of the decoding thread. */
  datatype Outcome = Instr(instruction: Instruction) | Failed(error: DecodeError) | Panicked

  /** `remaining_bytes`: how far `start + to_read` lies beyond `read`, or 0. */
  function RemainingBytes(start: nat, read: nat, toRead: nat): (r: nat)
    ensures r == 0 <==> start + toRead <= read
    ensures r > 0 ==> read + r == start + toRead
  {
    if start + toRead > read then start + toRead - read else 0
  }

  function StageInit(ctx: Context, buf: Bytes): (r: Action)
    ensures |buf| == 0 <==> r == Emit(ReadBytes(1))
    ensures |buf| > 0 && buf[0] >= 10 <==> r == Fail(ResponseTypeInvalid)
    ensures r.Next? ==> r.next.idx == ctx.idx + 1 && !r.next.stage.Init?
  {
    if |buf| == 0 then Emit(ReadBytes(1))
    else match TagTryFromU8(buf[0])
      case None => Fail(ResponseTypeInvalid)
      case Some(kind) =>
        var stage := match kind
          case BooleanTag => BooleanStage
          case FloatTag => FloatStage
          case IntegerTag => IntegerStage
          case ListTag => TypeInit(kind, 2)
          case MapTag => TypeInit(kind, 2)
          case SetTag => TypeInit(kind, 2)
          case BytesTag => TypeInit(kind, 4)
          case StringTag => TypeInit(kind, 4)
          case DispatchErrorTag => DispatchErrorStage
          case ParseErrorTag => ParseErrorStage;
        Next(Context(ctx.idx + 1, stage))
  }

  function StageBoolean(ctx: Context, buf: Bytes): (r: Action)
    ensures ctx.idx < |buf| ==> r == Emit(Concluded(ValueResponse(BooleanValue(buf[ctx.idx] != 0))))
    ensures ctx.idx >= |buf| ==> r == Emit(ReadBytes(1))
  {
    if ctx.idx < |buf| then Emit(Concluded(ValueResponse(BooleanValue(buf[ctx.idx] != 0))))
    else Emit(ReadBytes(1))
  }

  /**
   * Bytes payload: the `len` bytes from the index, or a request for the rest. The
   * length is non-zero only by a debug assertion, so a release build concludes an
   * empty payload like any other.
   */
  function StageBytes(ctx: Context, buf: Bytes, len: uint32): (r: Action)
    ensures ctx.idx + len <= |buf| ==> r == Emit(Concluded(ValueResponse(BytesValue(buf[ctx.idx..ctx.idx + len]))))
    ensures ctx.idx + len > |buf| ==> r == Emit(ReadBytes(ctx.idx + len - |buf|))
  {
    if ctx.idx + len <= |buf| then Emit(Concluded(ValueResponse(BytesValue(buf[ctx.idx..ctx.idx + len]))))
    else Emit(ReadBytes(RemainingBytes(ctx.idx, |buf|, len)))
  }

  /** A dispatch error code; unwrapping an unknown code panics. */
  function StageDispatchError(ctx: Context, buf: Bytes): (r: Action)
    ensures ctx.idx >= |buf| ==> r == Emit(ReadBytes(1))
    ensures ctx.idx < |buf| ==> (r.Panic? <==> buf[ctx.idx] >= 5)
    ensures r.Emit? && r.instruction.Concluded? ==>
      r.instruction.response.DispatchErrorResponse? && Errors.Code(r.instruction.response.dispatchError) == buf[ctx.idx]
  {
    if ctx.idx >= |buf| then Emit(ReadBytes(1))
    else match Errors.TryFromU8(buf[ctx.idx])
      case None => Panic
      case Some(e) => Emit(Concluded(DispatchErrorResponse(e)))
  }

  /** A float's eight bytes, kept as a raw bit pattern. A short buffer always asks for one byte. */
  function StageFloat(ctx: Context, buf: Bytes): (r: Action)
    ensures ctx.idx + 8 > |buf| <==> r == Emit(ReadBytes(1))
    ensures r.Emit? && r.instruction.Concluded? ==>
      r.instruction.response == ValueResponse(FloatValue(U64FromBE(buf[ctx.idx..ctx.idx + 8])))
  {
    if ctx.idx + 8 <= |buf| then Emit(Concluded(ValueResponse(FloatValue(U64FromBE(buf[ctx.idx..ctx.idx + 8])))))
    else Emit(ReadBytes(1))
  }

  /** A big-endian i64. A short buffer always asks for one byte. */
  function StageInteger(ctx: Context, buf: Bytes): (r: Action)
    ensures ctx.idx + 8 > |buf| <==> r == Emit(ReadBytes(1))
    ensures ctx.idx + 8 <= |buf| ==>
      r == Emit(Concluded(ValueResponse(IntegerValue(I64FromBE(buf[ctx.idx..ctx.idx + 8])))))
  {
    if ctx.idx + 8 <= |buf| then Emit(Concluded(ValueResponse(IntegerValue(I64FromBE(buf[ctx.idx..ctx.idx + 8])))))
    else Emit(ReadBytes(1))
  }

  /**
   * One list item: a u32 length and the item. The item is always read, so a list
   * whose header counts zero items still waits for one.
   */
  function StageList(ctx: Context, buf: Bytes, args: seq<Bytes>, len: uint16): (r: Action)
    ensures ctx.idx + 4 > |buf| ==> r == Emit(ReadBytes(ctx.idx + 4 - |buf|))
    ensures r.Next? ==> (ctx.idx + 4 <= r.next.idx <= |buf| && r.next.stage.ListStage?
      && |r.next.stage.args| == |args| + 1 < len && r.next.stage.args[..|args|] == args)
    ensures r.Emit? && r.instruction.Concluded? ==>
      r.instruction.response.ValueResponse? && r.instruction.response.value.ListValue?
      && |r.instruction.response.value.items| == |args| + 1 >= len
  {
    var sizeEnd := ctx.idx + 4;
    if sizeEnd > |buf| then Emit(ReadBytes(RemainingBytes(ctx.idx, |buf|, 4)))
    else
      var valueEnd := sizeEnd + FromBE(buf[ctx.idx..sizeEnd]);
      if valueEnd > |buf| then Emit(ReadBytes(valueEnd - |buf|))
      else
        var args' := args + [buf[sizeEnd..valueEnd]];
        if |args'| < len then Next(Context(valueEnd, ListStage(args', len)))
        else Emit(Concluded(ValueResponse(ListValue(args'))))
  }

  /**
   * One map entry: a u8 key length, the key, a u32 value length and the value. The
   * amounts requested on a short buffer are computed exactly as the source does.
   */
  function StageMap(ctx: Context, buf: Bytes, entries: map<Bytes, Bytes>, len: uint16): (r: Action)
    ensures r.Next? ==> (ctx.idx < r.next.idx <= |buf| && r.next.stage.MapStage?
      && |r.next.stage.entries| < len && entries.Keys <= r.next.stage.entries.Keys)
    ensures r.Emit? && r.instruction.Concluded? ==>
      r.instruction.response.ValueResponse? && r.instruction.response.value.MapValue?
      && |r.instruction.response.value.entries| >= len
  {
    var keySizeEnd := ctx.idx + 1;
    if keySizeEnd > |buf| then Emit(ReadBytes(RemainingBytes(ctx.idx, |buf|, 1)))
    else
      var keyValueEnd := keySizeEnd + buf[ctx.idx];
      if keyValueEnd > |buf| then Emit(ReadBytes(RemainingBytes(keySizeEnd, |buf|, keyValueEnd)))
      else
        var valueSizeEnd := keyValueEnd + 4;
        if valueSizeEnd > |buf| then Emit(ReadBytes(RemainingBytes(ctx.idx, |buf|, valueSizeEnd)))
        else
          var valueEnd := valueSizeEnd + FromBE(buf[keyValueEnd..valueSizeEnd]);
          if valueEnd > |buf| then Emit(ReadBytes(RemainingBytes(valueSizeEnd, |buf|, valueEnd)))
          else
            var entries' := entries[buf[keySizeEnd..keyValueEnd] := buf[valueSizeEnd..valueEnd]];
            if |entries'| < len then Next(Context(valueEnd, MapStage(entries', len)))
            else Emit(Concluded(ValueResponse(MapValue(entries'))))
  }

  /** A parse error code; unwrapping an unknown code panics. */
  function StageParseError(ctx: Context, buf: Bytes): (r: Action)
    ensures ctx.idx >= |buf| ==> r == Emit(ReadBytes(1))
    ensures ctx.idx < |buf| ==> (r.Panic? <==> buf[ctx.idx] >= 2)
    ensures r.Emit? && r.instruction.Concluded? ==>
      r.instruction.response.ParseErrorResponse? && ParseErrors.Code(r.instruction.response.parseError) == buf[ctx.idx]
  {
    if ctx.idx >= |buf| then Emit(ReadBytes(1))
    else match ParseErrors.TryFromU8(buf[ctx.idx])
      case None => Panic
      case Some(e) => Emit(Concluded(ParseErrorResponse(e)))
  }

  /** The width of the length header of each length-prefixed response type. */
  function HeaderWidth(kind: ResponseType): nat {
    match kind
    case BytesTag => 4
    case StringTag => 4
    case ListTag => 2
    case MapTag => 2
    case SetTag => 2
    case _ => 0
  }

  /**
   * Reads the length header. A zero-count map and an empty string conclude at once;
   * every other type moves on to its payload stage.
   */
  function StageTypeInit(ctx: Context, buf: Bytes, kind: ResponseType, readLen: nat): (r: Action)
    ensures ctx.idx + readLen > |buf| && readLen + 1 >= |buf| ==> r == Emit(ReadBytes(readLen + 1 - |buf|))
    ensures r.Next? ==> r.next.idx == ctx.idx + readLen <= |buf| && !r.next.stage.TypeInit? && !r.next.stage.Init?
  {
    if ctx.idx + readLen > |buf| then
      // `read_len + 1 - buf.len()` underflows (a debug-build panic) only for contexts feed never builds.
      if readLen + 1 < |buf| then Panic else Emit(ReadBytes(readLen + 1 - |buf|))
    else if readLen != HeaderWidth(kind) || readLen == 0 then Panic
    else
      var header := buf[ctx.idx..ctx.idx + readLen];
      var idx' := ctx.idx + readLen;
      match kind
      case BytesTag => Next(Context(idx', BytesStage(U32FromBE(header))))
      case ListTag => Next(Context(idx', ListStage([], U16FromBE(header))))
      case MapTag =>
        if FromBE(header) == 0 then Emit(Concluded(ValueResponse(MapValue(map[]))))
        else Next(Context(idx', MapStage(map[], U16FromBE(header))))
      case SetTag => Next(Context(idx', SetStage({}, U16FromBE(header))))
      case StringTag =>
        if FromBE(header) == 0 then Emit(Concluded(ValueResponse(StringValue([]))))
        else Next(Context(idx', StringStage(U32FromBE(header))))
  }

  /** One set element: a u16 length and the element. */
  function StageSet(ctx: Context, buf: Bytes, elems: set<Bytes>, len: uint16): (r: Action)
    ensures ctx.idx + 2 > |buf| ==> r == Emit(ReadBytes(ctx.idx + 2 - |buf|))
    ensures r.Next? ==> (ctx.idx + 2 <= r.next.idx <= |buf| && r.next.stage.SetStage?
      && |r.next.stage.elems| < len && elems <= r.next.stage.elems)
    ensures r.Emit? && r.instruction.Concluded? ==>
      r.instruction.response.ValueResponse? && r.instruction.response.value.SetValue?
      && |r.instruction.response.value.elems| >= len
  {
    var sizeEnd := ctx.idx + 2;
    if sizeEnd > |buf| then Emit(ReadBytes(RemainingBytes(ctx.idx, |buf|, 2)))
    else
      var valueEnd := sizeEnd + FromBE(buf[ctx.idx..sizeEnd]);
      if valueEnd > |buf| then Emit(ReadBytes(RemainingBytes(sizeEnd, |buf|, valueEnd)))
      else
        var elems' := elems + {buf[sizeEnd..valueEnd]};
        if |elems'| < len then Next(Context(valueEnd, SetStage(elems', len)))
        else Emit(Concluded(ValueResponse(SetValue(elems'))))
  }

  /** A string payload; bytes that are not UTF-8 are an error. */
  function StageString(ctx: Context, buf: Bytes, len: uint32): (r: Action)
    ensures ctx.idx + len > |buf| ==> r == Emit(ReadBytes(ctx.idx + len - |buf|))
    ensures ctx.idx + len <= |buf| ==>
      (r == Fail(StringInvalid) <==> !ValidUtf8(buf[ctx.idx..ctx.idx + len]))
    ensures ctx.idx + len <= |buf| && ValidUtf8(buf[ctx.idx..ctx.idx + len]) ==>
      r == Emit(Concluded(ValueResponse(StringValue(buf[ctx.idx..ctx.idx + len]))))
  {
    if ctx.idx + len > |buf| then Emit(ReadBytes(ctx.idx + len - |buf|))
    else
      var bytes := buf[ctx.idx..ctx.idx + len];
      if ValidUtf8(bytes) then Emit(Concluded(ValueResponse(StringValue(bytes))))
      else Fail(StringInvalid)
  }

  /** The stage function the current stage selects. */
  function Step(ctx: Context, buf: Bytes): (r: Action)
    ensures r.Next? ==> Progress(r.next, ctx, buf)
  {
    match ctx.stage
    case Init => StageInit(ctx, buf)
    case BooleanStage => StageBoolean(ctx, buf)
    case BytesStage(len) => StageBytes(ctx, buf, len)
    case FloatStage => StageFloat(ctx, buf)
    case IntegerStage => StageInteger(ctx, buf)
    case ListStage(args, len) => StageList(ctx, buf, args, len)
    case MapStage(entries, len) => StageMap(ctx, buf, entries, len)
    case SetStage(elems, len) => StageSet(ctx, buf, elems, len)
    case StringStage(len) => StageString(ctx, buf, len)
    case TypeInit(kind, readLen) => StageTypeInit(ctx, buf, kind, readLen)
    case DispatchErrorStage => StageDispatchError(ctx, buf)
    case ParseErrorStage => StageParseError(ctx, buf)
  }

  /** How far the index is from the end of the buffer. */
  function Unread(ctx: Context, buf: Bytes): nat {
    if ctx.idx <= |buf| then |buf| - ctx.idx else 0
  }

  /** Stages that only read a header come before the payload stages. */
  function Rank(s: Stage): nat {
    match s
    case Init => 2
    case TypeInit(_, _) => 1
    case _ => 0
  }

  /** A step that moves on either consumes input or advances from a header stage. */
  predicate Progress(next: Context, ctx: Context, buf: Bytes) {
    Unread(next, buf) < Unread(ctx, buf)
    || (Unread(next, buf) == Unread(ctx, buf) && Rank(next.stage) < Rank(ctx.stage))
  }

  /**
   * `Context::feed`: runs stages until one concludes, asks for more bytes, fails or
   * panics. A concluded response resets the context.
   */
  function Feed(ctx: Context, buf: Bytes): (r: (Context, Outcome))
    ensures r.1.Instr? && r.1.instruction.Concluded? ==> r.0 == New
    decreases Unread(ctx, buf), Rank(ctx.stage)
  {
    match Step(ctx, buf)
    case Next(c) => Feed(c, buf)
    case Emit(Concluded(resp)) => (New, Instr(Concluded(resp)))
    case Emit(ReadBytes(n)) => (ctx, Instr(ReadBytes(n)))
    case Fail(e) => (ctx, Failed(e))
    case Panic => (ctx, Panicked)
  }
}
