/**
 * Where the request parser as written parts from the request encoder, each shown
 * on a concrete request or for all inputs, next to what the intended parser does
 * on the same bytes.
 */
module RequestFindings {
  import opened Bytes
  import opened Wrappers
  import opened Values
  import opened CommandIds
  import ParseErrors
  import opened Requests
  import opened RequestParser
  import opened RequestParsing
  import Responses

  /** `increment foo` from the parser's own test, with the last byte of `foo` missing. */
  const Truncated: Bytes := [0, 1, 0, 0, 0, 3, 102, 111]

  /** `increment foo` from the parser's own test. */
  const IncrementFoo: Bytes := [0, 1, 0, 0, 0, 3, 102, 111, 111]

  /** `increment` with the key type Integer and the key `key`, as the request encoder lays it out. */
  const IncrementKeyed: Bytes := [128, 3, 1, 0, 0, 0, 3, 107, 101, 121]

  // The argument is taken as present before its last bytes arrive.

  /** As written, the truncated request is handed out as complete. */
  lemma TruncatedAcceptedAsWritten(b: Bytes)
    requires b == Truncated
    ensures FeedAsWritten(New, b).1 == Done(Request(b, Increment, None, []))
  {
    TryFromCode(Increment);
    var kind := Context(1, [], KindStage(Increment, None));
    var arg := Context(2, [], ArgumentStage(1, Increment, None));
    assert StepAsWritten(New, b) == Next(kind);
    assert StepAsWritten(kind, b) == Next(arg);
    assert b[2..6] == [0, 0, 0, 3];
    FromBELastByte(b[2..6]);
    assert StepAsWritten(arg, b) == Finished([5], Increment, None);
  }

  /** The intended parser waits for the missing byte. */
  lemma TruncatedWaits(b: Bytes)
    requires b == Truncated
    ensures Feed(New, b) == (Context(2, [], ArgumentStage(1, Increment, None)), Waiting)
  {
    TryFromCode(Increment);
    var kind := Context(1, [], KindStage(Increment, None));
    var arg := Context(2, [], ArgumentStage(1, Increment, None));
    FeedNext(New, b, kind);
    FeedNext(kind, b, arg);
    assert b[2..6] == [0, 0, 0, 3];
    FromBELastByte(b[2..6]);
    assert Step(arg, b) == Incomplete;
  }

  // The recorded position falls three bytes short of the argument's last byte.

  /** As written, the position of `foo` is 5, from which `arg` reads an empty argument. */
  lemma PositionShortAsWritten(b: Bytes)
    requires b == IncrementFoo
    ensures StepAsWritten(Context(2, [], ArgumentStage(1, Increment, None)), b) == Finished([5], Increment, None)
    ensures Arg(Request(b, Increment, None, [5]), 0) == Some([])
  {
    assert b[2..6] == [0, 0, 0, 3];
    FromBELastByte(b[2..6]);
    assert b[6..6] == [];
  }

  /** A request with one short argument, laid out byte by byte. */
  lemma OneArgument(cmd: CommandId, keyType: Option<KeyType>, arg: Bytes, b: Bytes)
    requires !IsSimple(cmd) && 0 < |arg| < 256
    requires b == Header(cmd, keyType, 1) + [0, 0, 0, |arg|] + arg
    ensures Encode(cmd, keyType, [arg]) == b
    ensures PositionsFrom(HeaderLength(keyType), [arg]) == [HeaderLength(keyType) + 3 + |arg|]
  {
    OneItem(arg);
    assert Encode(cmd, keyType, [arg]) == Header(cmd, keyType, 1) + Responses.ListItems([arg]);
    var h := HeaderLength(keyType);
    assert [arg][..0] == [];
    assert PositionsFrom(h, [arg]) == PositionsFrom(h, []) + [h + |Responses.ListItems([])| + 3 + |arg|];
  }

  /** One short argument framed: three zero bytes, its length, then the argument. */
  lemma OneItem(arg: Bytes)
    requires 0 < |arg| < 256
    ensures Responses.ListItems([arg]) == [0, 0, 0, |arg|] + arg
  {
    var len: Bytes := [0, 0, 0, |arg|];
    FromBELastByte(len);
    BEInjective(U32BE(|arg|), len);
    assert Responses.ItemBytes(arg) == len + arg;
    assert [arg][1..] == [];
    assert Responses.ListItems([arg]) == Responses.ItemBytes(arg) + Responses.ListItems([]);
  }

  /** The intended parser records 8, the index of the last `o`, from which `arg` reads `foo`. */
  lemma PositionOfFoo(b: Bytes, foo: Bytes)
    requires b == IncrementFoo && foo == [102, 111, 111]
    ensures Feed(New, b) == (New, Done(Request(b, Increment, None, [8])))
    ensures Arg(Feed(New, b).1.request, 0) == Some(foo)
  {
    OneArgument(Increment, None, foo, b);
    assert b + [] == b;
    FeedEncoded(Increment, None, [foo], []);
    ArgOfEncoded(Increment, None, [foo], [], 0);
  }

  // The request handed out sees the positions already cleared.

  /** Every request `feed` hands out as written has no arguments, so neither a key nor `args`. */
  lemma {:induction false} DoneWithoutPositionsAsWritten(ctx: Context, buf: Bytes)
    requires FeedAsWritten(ctx, buf).1.Done?
    ensures FeedAsWritten(ctx, buf).1.request.positions == []
    ensures Key(FeedAsWritten(ctx, buf).1.request).None?
    ensures Args(FeedAsWritten(ctx, buf).1.request, Unbounded, Unbounded).None?
    decreases Unread(ctx, buf), Rank(ctx.stage)
  {
    match StepAsWritten(ctx, buf)
    case Next(c) => DoneWithoutPositionsAsWritten(c, buf);
    case Finished(_, _, _) =>
    case Incomplete =>
    case Fail(_) =>
    case Panic =>
  }

  // The key type is read from the command byte instead of the byte after it.

  /** As written, every first byte with the top bit set is refused, whatever follows. */
  lemma KeyedRefusedAsWritten(buf: Bytes)
    requires |buf| > 0 && buf[0] >= 128
    ensures FeedAsWritten(New, buf) == (New, Failed(ParseErrors.KeyTypeInvalid))
  {
  }

  /** The intended parser reads the keyed request, and its key. */
  lemma KeyedAccepted(b: Bytes, key: Bytes)
    requires b == IncrementKeyed && key == [107, 101, 121]
    ensures Feed(New, b) == (New, Done(Request(b, Increment, Some(IntegerType), [9])))
    ensures Key(Feed(New, b).1.request) == Some(key)
  {
    OneArgument(Increment, Some(IntegerType), key, b);
    assert b + [] == b;
    FeedEncoded(Increment, Some(IntegerType), [key], []);
    KeyOfEncoded(Increment, Some(IntegerType), [key], []);
  }

  // A count of zero is never reached.

  /** As written, argument parsing for a count of zero never finishes a request. */
  lemma {:induction false} ZeroCountNeverDoneAsWritten(ctx: Context, buf: Bytes)
    requires ctx.stage.ArgumentStage? && ctx.stage.count == 0
    ensures !FeedAsWritten(ctx, buf).1.Done?
    decreases Unread(ctx, buf), Rank(ctx.stage)
  {
    if ctx.idx <= |buf| {
      match StepAsWritten(ctx, buf)
      case Next(c) => ZeroCountNeverDoneAsWritten(c, buf);
      case Finished(_, _, _) =>
      case Incomplete =>
      case Fail(_) =>
      case Panic =>
    }
  }

  /** As written, a request whose count byte is zero is never handed out, whatever follows it. */
  lemma ZeroCountRequestAsWritten(cmd: CommandId, buf: Bytes)
    requires !IsSimple(cmd) && |buf| >= 2 && buf[0] == Code(cmd) && buf[1] == 0
    ensures !FeedAsWritten(New, buf).1.Done?
  {
    TryFromCode(cmd);
    var kind := Context(1, [], KindStage(cmd, None));
    var arg := Context(2, [], ArgumentStage(0, cmd, None));
    assert StepAsWritten(New, buf) == Next(kind);
    assert StepAsWritten(kind, buf) == Next(arg);
    ZeroCountNeverDoneAsWritten(arg, buf);
  }

  /** The intended parser hands out a request with no arguments on its count byte. */
  lemma ZeroCountRequest(cmd: CommandId, buf: Bytes)
    requires !IsSimple(cmd) && |buf| >= 2 && buf[0] == Code(cmd) && buf[1] == 0
    ensures Feed(New, buf) == (New, Done(Request(buf, cmd, None, [])))
  {
    assert buf == Encode(cmd, None, []) + buf[2..];
    FeedEncoded(cmd, None, [], buf[2..]);
  }

  /**
   * Where the parser as written stands after reading `k` empty arguments under a count
   * of zero: each position recorded is the index of that argument's length bytes.
   */
  function ZeroRun(cmd: CommandId, k: nat): (r: Context)
    ensures |r.positions| == k && r.stage == ArgumentStage(0, cmd, None)
  {
    Context(2 + 4 * k, seq(k, i => 2 + 4 * i), ArgumentStage(0, cmd, None))
  }

  /** As written, empty arguments under a count of zero fill the positions until a push panics. */
  lemma {:induction false} ZeroRunPanics(cmd: CommandId, buf: Bytes, k: nat)
    requires k <= PositionCapacity && |buf| >= 2 + 4 * (PositionCapacity + 1)
    requires forall i :: 2 <= i < |buf| ==> buf[i] == 0
    ensures FeedAsWritten(ZeroRun(cmd, k), buf).1 == Panicked
    decreases PositionCapacity - k
  {
    var ctx := ZeroRun(cmd, k);
    FromBEZero(buf[ctx.idx..ctx.idx + 4]);
    if k < PositionCapacity {
      assert ctx.positions + [ctx.idx] == ZeroRun(cmd, k + 1).positions;
      assert StepAsWritten(ctx, buf) == Next(ZeroRun(cmd, k + 1));
      ZeroRunPanics(cmd, buf, k + 1);
    } else {
      assert StepAsWritten(ctx, buf) == Panic;
    }
  }

  /**
   * As written, a request with a count of zero followed by zero bytes, as many as 257
   * empty arguments take, panics the parser; the intended parser hands the request
   * out on its count byte and never panics (`RequestStreaming.NeverPanics`).
   */
  lemma ZeroCountPanicsAsWritten(cmd: CommandId, buf: Bytes)
    requires !IsSimple(cmd) && |buf| >= 2 + 4 * (PositionCapacity + 1) && buf[0] == Code(cmd)
    requires forall i :: 1 <= i < |buf| ==> buf[i] == 0
    ensures FeedAsWritten(New, buf).1 == Panicked
  {
    TryFromCode(cmd);
    var kind := Context(1, [], KindStage(cmd, None));
    assert StepAsWritten(New, buf) == Next(kind);
    assert StepAsWritten(kind, buf) == Next(ZeroRun(cmd, 0));
    ZeroRunPanics(cmd, buf, 0);
  }
}
