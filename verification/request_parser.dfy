/**
 * The incremental request parser. A context is fed the whole buffer received so
 * far; it either yields a request whose arguments are located by the positions it
 * recorded, reports that it needs more bytes, or fails on a header it cannot read.
 *
 * Two parsers share the context: `StepAsWritten`/`FeedAsWritten` follow the source
 * line by line, `Step`/`Feed` are the evidently intended parser, which frames the
 * requests the request encoder writes. The rest of the model uses the latter.
 */
module RequestParser {
  import opened Bytes
  import opened Wrappers
  import opened Values
  import opened CommandIds
  import ParseErrors
  import opened Requests

  datatype Stage =
    | Init
    | KindStage(cmd: CommandId, keyType: Option<KeyType>)
    | ArgumentStage(count: uint8, cmd: CommandId, keyType: Option<KeyType>)

  /** The index of the next byte to read, the positions recorded so far and the stage. */
  datatype Context = Context(idx: nat, positions: seq<nat>, stage: Stage)

  /** `Context::new()` and the state `reset()` returns to. */
  const New: Context := Context(0, [], Init)

  /** The `ArrayVec` of positions holds at most this many. */
  const PositionCapacity: nat := 256

  /** What one stage does: move on, finish a request, wait for more bytes, fail, or panic. */
  datatype Action =
    | Next(next: Context)
    | Finished(positions: seq<nat>, cmd: CommandId, keyType: Option<KeyType>)
    | Incomplete
    | Fail(error: ParseErrors.ParseError)
    | Panic

  /** The result of `feed`: `Ok(None)`, `Ok(Some(request))`, `Err(e)`, or a panic of the parsing thread. */
  datatype Outcome = Waiting | Done(request: Request) | Failed(error: ParseErrors.ParseError) | Panicked

  /** How far the index is from the end of the buffer. */
  function Unread(ctx: Context, buf: Bytes): nat {
    if ctx.idx <= |buf| then |buf| - ctx.idx else 0
  }

  /** The header stages come before the argument stage. */
  function Rank(s: Stage): nat {
    match s
    case Init => 2
    case KindStage(_, _) => 1
    case ArgumentStage(_, _, _) => 0
  }

  /** A step that moves on either consumes input or advances from a header stage. */
  predicate Progress(next: Context, ctx: Context, buf: Bytes) {
    Unread(next, buf) < Unread(ctx, buf)
    || (Unread(next, buf) == Unread(ctx, buf) && Rank(next.stage) < Rank(ctx.stage))
  }

  // The parser as written.

  /**
   * `stage_init`: a first byte with the top bit set asks for the key type `byte >> 1`,
   * which is never a key type code; otherwise the byte is the command id. A simple
   * command is finished on its one byte.
   */
  function InitAsWritten(ctx: Context, buf: Bytes): (r: Action)
    ensures |buf| == 0 <==> r == Incomplete
    ensures |buf| > 0 && buf[0] >= 128 ==> r == Fail(ParseErrors.KeyTypeInvalid)
    ensures |buf| > 0 && buf[0] < 128 ==> (r == Fail(ParseErrors.CommandIdInvalid) <==> buf[0] !in ValidCodes)
    ensures r.Finished? ==> r.cmd == Stats && r.keyType.None? && r.positions == ctx.positions
    ensures r.Next? ==> r.next.stage.KindStage? && r.next == Context(ctx.idx + 1, ctx.positions, KindStage(r.next.stage.cmd, None))
  {
    if |buf| == 0 then Incomplete
    else
      var byte := buf[0];
      var keyed := byte / 128 == 1;
      var keyType := if keyed then KeyTypeTryFromU8(byte / 2) else None;
      if keyed && keyType.None? then Fail(ParseErrors.KeyTypeInvalid)
      else match CommandIds.TryFromU8(byte)
        case None => Fail(ParseErrors.CommandIdInvalid)
        case Some(cmd) =>
          if IsSimple(cmd) then Finished(ctx.positions, cmd, None)
          else Next(Context(ctx.idx + 1, ctx.positions, KindStage(cmd, keyType)))
  }

  /** `stage_kind`: the byte at the index is the argument count. */
  function KindStep(ctx: Context, buf: Bytes, cmd: CommandId, keyType: Option<KeyType>): (r: Action)
    ensures ctx.idx >= |buf| <==> r == Incomplete
    ensures ctx.idx < |buf| ==> r == Next(Context(ctx.idx + 1, ctx.positions, ArgumentStage(buf[ctx.idx], cmd, keyType)))
  {
    if ctx.idx >= |buf| then Incomplete
    else Next(Context(ctx.idx + 1, ctx.positions, ArgumentStage(buf[ctx.idx], cmd, keyType)))
  }

  /**
   * `stage_argument_parsing`: a 4-byte big-endian length, then the argument. The
   * check that the argument has arrived leaves out the four length bytes, and the
   * position recorded is the index of the length's first byte plus the length.
   * Pushing a position onto a full `ArrayVec` panics.
   */
  function ArgumentAsWritten(ctx: Context, buf: Bytes, count: uint8, cmd: CommandId, keyType: Option<KeyType>): (r: Action)
    ensures ctx.idx + 4 > |buf| ==> r == Incomplete
    ensures r.Next? || r.Finished? ==> ctx.idx + 4 <= |buf| && |ctx.positions| < PositionCapacity
    ensures r.Next? ==> r.next.stage == ArgumentStage(count, cmd, keyType) && |r.next.positions| != count
    ensures r.Finished? ==> |r.positions| == count && r.cmd == cmd && r.keyType == keyType
    ensures r.Panic? <==> ctx.idx + 4 <= |buf| && ctx.idx + FromBE(buf[ctx.idx..ctx.idx + 4]) <= |buf|
                          && |ctx.positions| >= PositionCapacity
    ensures !r.Fail?
  {
    if ctx.idx + 4 > |buf| then Incomplete
    else
      var len := FromBE(buf[ctx.idx..ctx.idx + 4]);
      if ctx.idx + len > |buf| then Incomplete
      else if |ctx.positions| >= PositionCapacity then Panic
      else
        var positions := ctx.positions + [ctx.idx + len];
        if |positions| == count then Finished(positions, cmd, keyType)
        else Next(Context(ctx.idx + 4 + len, positions, ArgumentStage(count, cmd, keyType)))
  }

  function StepAsWritten(ctx: Context, buf: Bytes): (r: Action)
    ensures r.Next? ==> Progress(r.next, ctx, buf) && |ctx.positions| <= |r.next.positions|
  {
    match ctx.stage
    case Init => InitAsWritten(ctx, buf)
    case KindStage(cmd, keyType) => KindStep(ctx, buf, cmd, keyType)
    case ArgumentStage(count, cmd, keyType) => ArgumentAsWritten(ctx, buf, count, cmd, keyType)
  }

  /**
   * `Context::feed` as written: it resets the context before handing out the request,
   * so the request it borrows the positions for sees them already cleared.
   */
  function FeedAsWritten(ctx: Context, buf: Bytes): (r: (Context, Outcome))
    ensures r.1.Done? ==> r.0 == New && r.1.request.buf == buf
    decreases Unread(ctx, buf), Rank(ctx.stage)
  {
    if ctx.idx > |buf| then (ctx, Waiting)
    else match StepAsWritten(ctx, buf)
      case Next(c) => FeedAsWritten(c, buf)
      case Finished(_, cmd, keyType) => (New, Done(Request(buf, cmd, keyType, New.positions)))
      case Incomplete => (ctx, Waiting)
      case Fail(e) => (ctx, Failed(e))
      case Panic => (ctx, Panicked)
  }

  // The parser as intended.

  /**
   * The first byte is the command id, with the top bit set when the next byte is a
   * key type code. A simple command is finished on its first byte.
   */
  function InitStep(ctx: Context, buf: Bytes): (r: Action)
    ensures |buf| == 0 ==> r == Incomplete
    ensures |buf| > 0 && buf[0] < 128 ==> (r == Fail(ParseErrors.CommandIdInvalid) <==> buf[0] !in ValidCodes)
    ensures |buf| > 1 && buf[0] >= 128 && buf[1] >= 8 ==> r == Fail(ParseErrors.KeyTypeInvalid)
    ensures r.Finished? ==> r.cmd == Stats && r.keyType.None? && r.positions == []
    ensures r.Next? ==> (r.next.positions == [] && r.next.stage.KindStage?
      && Code(r.next.stage.cmd) == buf[0] % 128 && (r.next.stage.keyType.Some? <==> buf[0] >= 128)
      && r.next.idx == ctx.idx + HeaderLength(r.next.stage.keyType) - 1)
  {
    if |buf| == 0 then Incomplete
    else
      var byte := buf[0];
      var keyed := byte >= 128;
      if keyed && |buf| < 2 then Incomplete
      else
        var keyType := if keyed then KeyTypeTryFromU8(buf[1]) else None;
        if keyed && keyType.None? then Fail(ParseErrors.KeyTypeInvalid)
        else match CommandIds.TryFromU8(byte % 128)
          case None => Fail(ParseErrors.CommandIdInvalid)
          case Some(cmd) =>
            if IsSimple(cmd) then Finished([], cmd, None)
            else Next(Context(ctx.idx + HeaderLength(keyType) - 1, [], KindStage(cmd, keyType)))
  }

  /** The argument count; a request without arguments is finished on it. */
  function CountStep(ctx: Context, buf: Bytes, cmd: CommandId, keyType: Option<KeyType>): (r: Action)
    ensures ctx.idx >= |buf| <==> r == Incomplete
    ensures ctx.idx < |buf| && buf[ctx.idx] == 0 ==> r == Finished(ctx.positions, cmd, keyType)
    ensures ctx.idx < |buf| && buf[ctx.idx] > 0 ==> r == Next(Context(ctx.idx + 1, ctx.positions, ArgumentStage(buf[ctx.idx], cmd, keyType)))
  {
    if ctx.idx < |buf| && buf[ctx.idx] == 0 then Finished(ctx.positions, cmd, keyType)
    else KindStep(ctx, buf, cmd, keyType)
  }

  /**
   * One argument: its 4-byte big-endian length and its bytes, both present in the
   * buffer. The position recorded is the index of the argument's last byte.
   */
  function ArgumentStep(ctx: Context, buf: Bytes, count: uint8, cmd: CommandId, keyType: Option<KeyType>): (r: Action)
    ensures r.Next? || r.Finished? ==> ctx.idx + 4 <= |buf| && ctx.idx + 4 + FromBE(buf[ctx.idx..ctx.idx + 4]) <= |buf|
    ensures r.Next? ==> (r.next.stage == ArgumentStage(count, cmd, keyType)
      && r.next.positions == ctx.positions + [r.next.idx - 1] && |r.next.positions| != count)
    ensures r.Finished? ==> |r.positions| == count == |ctx.positions| + 1 && r.positions[..|ctx.positions|] == ctx.positions
    ensures r == Incomplete <==> ctx.idx + 4 > |buf| || ctx.idx + 4 + FromBE(buf[ctx.idx..ctx.idx + 4]) > |buf|
    ensures !r.Fail?
  {
    if ctx.idx + 4 > |buf| then Incomplete
    else
      var len := FromBE(buf[ctx.idx..ctx.idx + 4]);
      if ctx.idx + 4 + len > |buf| then Incomplete
      else if |ctx.positions| >= PositionCapacity then Panic
      else
        var positions := ctx.positions + [ctx.idx + 3 + len];
        if |positions| == count then Finished(positions, cmd, keyType)
        else Next(Context(ctx.idx + 4 + len, positions, ArgumentStage(count, cmd, keyType)))
  }

  function Step(ctx: Context, buf: Bytes): (r: Action)
    ensures r.Next? ==> Progress(r.next, ctx, buf)
  {
    match ctx.stage
    case Init => InitStep(ctx, buf)
    case KindStage(cmd, keyType) => CountStep(ctx, buf, cmd, keyType)
    case ArgumentStage(count, cmd, keyType) => ArgumentStep(ctx, buf, count, cmd, keyType)
  }

  /** `Context::feed` as intended: a finished request keeps the positions recorded for it. */
  function Feed(ctx: Context, buf: Bytes): (r: (Context, Outcome))
    ensures r.1.Done? ==> r.0 == New && r.1.request.buf == buf
    decreases Unread(ctx, buf), Rank(ctx.stage)
  {
    if ctx.idx > |buf| then (ctx, Waiting)
    else match Step(ctx, buf)
      case Next(c) => Feed(c, buf)
      case Finished(positions, cmd, keyType) => (New, Done(Request(buf, cmd, keyType, positions)))
      case Incomplete => (ctx, Waiting)
      case Fail(e) => (ctx, Failed(e))
      case Panic => (ctx, Panicked)
  }
}
