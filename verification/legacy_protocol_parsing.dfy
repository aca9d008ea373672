/**
 * What the oldest request parser does with whole buffers and with buffers cut
 * short: its refusals, the simple command, the argument it takes, resuming
 * after a wait, and the reads past the end its successor turned into waits.
 */
module LegacyProtocolParsing {
  import opened Bytes
  import opened Wrappers
  import opened Responses
  import opened LegacyKinds
  import opened LegacyProtocol
  import P = Pools
  import L = LegacyCommandIds
  import RP = LegacyRequestParsing

  /** A pass that goes round again leaves the outcome to the passes after it. */
  lemma RunContinue(c: Context, buf: Bytes, next: Context)
    requires |buf| > 0 && Step(c, buf) == Continue(next)
    ensures Run(c, buf) == Run(next, buf)
  {
  }

  /** A new context's pool hands out its one empty buffer and is left empty. */
  lemma NewPoolPull()
    ensures P.Pull(NewContext().pool) == (P.Pool([], []), [])
  {
    assert NewContext().pool.items[..0] == [];
  }

  /** A pass that returns ends the loop with what it returns. */
  lemma RunStop(c: Context, buf: Bytes, ctx: Context, outcome: Outcome)
    requires |buf| > 0 && Step(c, buf) == Stop(ctx, outcome)
    ensures Run(c, buf) == (ctx, outcome)
  {
  }

  /** An argument pass whose prefix reads `n`, with the argument all there, that is not the last, goes round again. */
  lemma ArgumentContinues(c: Context, buf: Bytes, n: nat, taken: Bytes)
    requires c.stage.ArgumentParsing? && c.bufArgs.Some? && (|c.bufArgs.value| + 1) % 256 != c.stage.count as int
    requires c.idx + 4 <= |buf| && FromBE(buf[c.idx..c.idx + 4]) == n && c.idx + n <= |buf|
    requires P.Pull(c.pool).1 + buf[c.idx..c.idx + n] == taken
    ensures Step(c, buf) ==
      Continue(c.(pool := P.Pull(c.pool).0, bufArgs := Some(c.bufArgs.value + [taken]), idx := c.idx + 4 + n))
  {
  }

  /** The argument pass that meets the count returns the command with every argument collected. */
  lemma ArgumentEnds(c: Context, buf: Bytes, n: nat, taken: Bytes)
    requires c.stage.ArgumentParsing? && c.bufArgs.Some? && (|c.bufArgs.value| + 1) % 256 == c.stage.count as int
    requires c.idx + 4 <= |buf| && FromBE(buf[c.idx..c.idx + 4]) == n && c.idx + n <= |buf|
    requires P.Pull(c.pool).1 + buf[c.idx..c.idx + n] == taken
    ensures Step(c, buf) ==
      Stop(Context(P.Pull(c.pool).0, None, c.idx + 4 + n, Init), Parsed(CommandInfo(Some(c.bufArgs.value + [taken]), c.stage.kind)))
  {
  }

  /** A first byte that is no command id is refused, whatever follows; the context is kept. */
  lemma FeedRefuses(c: Context, buf: Bytes)
    requires c.stage == Init && |buf| > 0 && buf[0] !in L.ValidCodes
    ensures Feed(c, buf) == (c, Refused(CommandTypeInvalid))
  {
  }

  /** `stats` is handed out on its one byte, without arguments, and the context goes back to the start. */
  lemma FeedSimple(c: Context, buf: Bytes)
    requires c.stage == Init && |buf| > 0 && buf[0] == Code(Stats)
    ensures Feed(c, buf) == (ResetLight(c), Parsed(CommandInfo(None, Stats)))
  {
    TryFromCode(Stats);
  }

  /** The header's two passes from a new context, for a command that is not simple. */
  lemma HeaderPasses(kind: CommandType, buf: Bytes)
    requires !IsSimple(kind) && |buf| >= 2 && buf[0] == Code(kind)
    ensures Run(NewContext(), buf) == Run(NewContext().(stage := ArgumentParsing(buf[1], kind), idx := 2), buf)
  {
    TryFromCode(kind);
    var c := NewContext();
    RunContinue(c, buf, c.(stage := KindStage(kind), idx := 1));
    RunContinue(c.(stage := KindStage(kind), idx := 1), buf, c.(stage := ArgumentParsing(buf[1], kind), idx := 2));
  }

  /**
   * A buffer holding a command that is not simple but ending before its first
   * length prefix is whole reads past its end: the count byte, or the prefix.
   */
  lemma ShortHeaderPanics(kind: CommandType, buf: Bytes)
    requires !IsSimple(kind) && 0 < |buf| < 6 && buf[0] == Code(kind)
    ensures Feed(NewContext(), buf).1 == Panicked
  {
    TryFromCode(kind);
    var c := NewContext();
    RunContinue(c, buf, c.(stage := KindStage(kind), idx := 1));
    if |buf| >= 2 {
      HeaderPasses(kind, buf);
    }
  }

  /**
   * The last argument of a request, framed at the read position: the pass
   * takes as many bytes as the length says, starting at the length prefix, and
   * hands out the command.
   */
  lemma LastArgumentTaken(c: Context, buf: Bytes, arg: Bytes)
    requires c.stage.ArgumentParsing? && c.bufArgs.Some? && |c.bufArgs.value| + 1 == c.stage.count as int
    requires P.Pull(c.pool).1 == [] && FitsU32(arg)
    requires c.idx + 4 + |arg| <= |buf| && buf[c.idx..c.idx + 4 + |arg|] == ItemBytes(arg)
    ensures Step(c, buf) == Stop(Context(P.Pull(c.pool).0, None, c.idx + 4 + |arg|, Init),
      Parsed(CommandInfo(Some(c.bufArgs.value + [buf[c.idx..c.idx + |arg|]]), c.stage.kind)))
  {
    assert buf[c.idx..c.idx + 4] == ItemBytes(arg)[..4];
    assert [] + buf[c.idx..c.idx + |arg|] == buf[c.idx..c.idx + |arg|];
    ArgumentEnds(c, buf, |arg|, buf[c.idx..c.idx + |arg|]);
  }

  /** A request of one argument framed at index 2: the pass takes as many bytes as the length says, from index 2. */
  lemma OneArgumentRun(kind: CommandType, buf: Bytes, arg: Bytes)
    requires !IsSimple(kind) && |buf| >= 2 && buf[0] == Code(kind) && buf[1] == 1 && FitsU32(arg)
    requires 6 + |arg| <= |buf| && buf[2..6 + |arg|] == ItemBytes(arg)
    ensures Feed(NewContext(), buf).1 == Parsed(CommandInfo(Some([buf[2..2 + |arg|]]), kind))
  {
    HeaderPasses(kind, buf);
    var reading := NewContext().(stage := ArgumentParsing(1, kind), idx := 2);
    LastArgumentTaken(reading, buf, arg);
    RunStop(reading, buf, Context(P.Pull(reading.pool).0, None, 6 + |arg|, Init),
      Parsed(CommandInfo(Some([] + [buf[2..2 + |arg|]]), kind)));
    assert [] + [buf[2..2 + |arg|]] == [buf[2..2 + |arg|]];
  }

  /**
   * As the source reads it, the one argument of a request is the bytes starting
   * at its length prefix, as many as the length says.
   */
  lemma OneArgumentAsWritten(kind: CommandType, arg: Bytes, rest: Bytes)
    requires !IsSimple(kind) && FitsU32(arg)
    ensures var buf := RP.Encoded(Renamed(kind), [arg]) + rest;
      Feed(NewContext(), buf).1 == Parsed(CommandInfo(Some([(ItemBytes(arg) + rest)[..|arg|]]), kind))
  {
    var buf := RP.Encoded(Renamed(kind), [arg]) + rest;
    RP.EncodedFraming(Renamed(kind), [arg], rest);
    assert ListItems([arg]) == ItemBytes(arg) + [];
    OneArgumentRun(kind, buf, arg);
    assert buf == [Code(kind), 1] + (ItemBytes(arg) + rest);
    assert buf[2..2 + |arg|] == (ItemBytes(arg) + rest)[..|arg|];
  }

  /**
   * The source's own example, `increment:int` with the argument "foo": it is
   * handed out as `increment:int`, with [0, 0, 0], the start of the length
   * prefix, as its argument; the read position is left at the end.
   */
  lemma FooExample(buf: Bytes)
    requires buf == [0, 1, 0, 0, 0, 3, 102, 111, 111]
    ensures Feed(NewContext(), buf) ==
      (Context(P.Pool([], []), None, 9, Init), Parsed(CommandInfo(Some([[0, 0, 0]]), IncrementInt)))
  {
    assert FromBE(buf[2..6]) == 3 by {
      assert buf[2..6] == [0, 0, 0, 3];
      FromBELastByte(buf[2..6]);
    }
    HeaderPasses(IncrementInt, buf);
    NewPoolPull();
    var reading := NewContext().(stage := ArgumentParsing(1, IncrementInt), idx := 2);
    assert [] + buf[2..5] == [0, 0, 0] && [] + [[0, 0, 0]] == [[0, 0, 0]];
    ArgumentEnds(reading, buf, 3, [0, 0, 0]);
    RunStop(reading, buf, Context(P.Pool([], []), None, 9, Init), Parsed(CommandInfo(Some([[0, 0, 0]]), IncrementInt)));
  }

  /**
   * Fed again without a reset, the same bytes are read from where the last
   * request ended, past the buffer's end; after a reset with the arguments
   * handed back, the context is new again and reads them as before.
   */
  lemma FooAgain(buf: Bytes)
    requires buf == [0, 1, 0, 0, 0, 3, 102, 111, 111]
    ensures var after := Context(P.Pool([], []), None, 9, Init);
      Feed(after, buf).1 == Panicked &&
      Reset(after, [[0, 0, 0]]) == NewContext()
  {
    var after := Context(P.Pool([], []), None, 9, Init);
    TryFromCode(IncrementInt);
    RunContinue(after, buf, after.(stage := KindStage(IncrementInt), idx := 10));
    assert Reset(after, [[0, 0, 0]]).pool.items == [[]];
  }

  /** The whole request of the resume example, read from its argument's length prefix. */
  lemma ResumedArgument(whole: Bytes)
    requires whole == [0, 1, 0, 0, 0, 6, 102, 111, 111, 98, 97, 114]
    ensures var waiting := NewContext().(stage := ArgumentParsing(1, IncrementInt), idx := 2);
      Run(waiting, whole) == (Context(P.Pool([], []), None, 12, Init), Parsed(CommandInfo(Some([[0, 0, 0, 6, 102, 111]]), IncrementInt)))
  {
    assert FromBE(whole[2..6]) == 6 by {
      assert whole[2..6] == [0, 0, 0, 6];
      FromBELastByte(whole[2..6]);
    }
    var waiting := NewContext().(stage := ArgumentParsing(1, IncrementInt), idx := 2);
    NewPoolPull();
    assert whole[2..8] == [0, 0, 0, 6, 102, 111];
    assert [] + whole[2..8] == [0, 0, 0, 6, 102, 111];
    assert [] + [[0, 0, 0, 6, 102, 111]] == [[0, 0, 0, 6, 102, 111]];
    ArgumentEnds(waiting, whole, 6, [0, 0, 0, 6, 102, 111]);
    RunStop(waiting, whole, Context(P.Pool([], []), None, 12, Init), Parsed(CommandInfo(Some([[0, 0, 0, 6, 102, 111]]), IncrementInt)));
  }

  /**
   * A request whose argument is not all there yet waits, with the context at
   * the argument's length prefix; fed the whole request, that context finishes
   * it as a new one would.
   */
  lemma ResumeExample(part: Bytes, whole: Bytes)
    requires part == [0, 1, 0, 0, 0, 6]
    requires whole == [0, 1, 0, 0, 0, 6, 102, 111, 111, 98, 97, 114]
    ensures var waiting := NewContext().(stage := ArgumentParsing(1, IncrementInt), idx := 2);
      Feed(NewContext(), part) == (waiting, Waiting) &&
      Feed(waiting, whole) == Feed(NewContext(), whole) &&
      Feed(waiting, whole).1 == Parsed(CommandInfo(Some([[0, 0, 0, 6, 102, 111]]), IncrementInt))
  {
    assert FromBE(part[2..6]) == 6 by {
      assert part[2..6] == [0, 0, 0, 6];
      FromBELastByte(part[2..6]);
    }
    var waiting := NewContext().(stage := ArgumentParsing(1, IncrementInt), idx := 2);
    HeaderPasses(IncrementInt, part);
    RunStop(waiting, part, waiting, Waiting);
    HeaderPasses(IncrementInt, whole);
    ResumedArgument(whole);
  }

  /**
   * A count of zero is never met by the `u8` cast of a count of arguments
   * below 256, so one argument is not the end of the request: the parser reads
   * on past it, here past the end of the buffer.
   */
  lemma ZeroCountReadsOn(zero: Bytes)
    requires zero == [0, 0, 0, 0, 0, 0]
    ensures Feed(NewContext(), zero).1 == Panicked
  {
    assert FromBE(zero[2..6]) == 0 by {
      assert zero[2..6] == [0, 0, 0, 0];
      FromBELastByte(zero[2..6]);
    }
    var empty: Bytes := [];
    assert zero[2..2] == empty && [] + empty == empty;
    NewPoolPull();
    var reading := NewContext().(stage := ArgumentParsing(0, IncrementInt), idx := 2);
    HeaderPasses(IncrementInt, zero);
    assert [] + [empty] == [empty];
    ArgumentContinues(reading, zero, 0, empty);
    var after := reading.(pool := P.Pool([], []), bufArgs := Some([empty]), idx := 6);
    RunContinue(reading, zero, after);
    RunStop(after, zero, after, Panicked);
  }
}
