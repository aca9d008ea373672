/**
 * What the earlier crate's request parser does with whole buffers: the first
 * byte's refusals, the simple command, the argument framing read back, and
 * how the source's argument slice differs from the one the framing means.
 */
module LegacyRequestParsing {
  import opened Bytes
  import opened Wrappers
  import opened Layout
  import opened Responses
  import opened LegacyCommandIds
  import opened LegacyRequests
  import P = Pools

  /** A step that moves on leaves the outcome to the steps after it. */
  lemma FeedNext(c: Context, buf: Bytes, sl: Slicing, next: Context)
    requires c.idx <= |buf| && Step(c, buf, sl) == Ok((next, Next))
    ensures Feed(c, buf, sl).1 == Feed(next, buf, sl).1
  {
  }

  /** A step that finishes a request ends the feed with it. */
  lemma FeedFinished(c: Context, buf: Bytes, sl: Slicing, next: Context, req: Request)
    requires c.idx <= |buf| && Step(c, buf, sl) == Ok((next, Finished(req)))
    ensures Feed(c, buf, sl).1 == Ok(Some(req))
  {
  }

  /** The first byte with its top bit set is refused as a key type, whatever follows; the context is kept. */
  lemma FeedRefusesTopBit(c: Context, buf: Bytes, sl: Slicing)
    requires c.stage == Init && c.idx <= |buf| && |buf| > 0 && buf[0] >= 128
    ensures Feed(c, buf, sl) == (c, Err(KeyTypeInvalid))
  {
  }

  /** Any other first byte that is not a command id is refused as one. */
  lemma FeedRefusesUnknown(c: Context, buf: Bytes, sl: Slicing)
    requires c.stage == Init && c.idx <= |buf| && |buf| > 0 && buf[0] < 128 && buf[0] !in ValidCodes
    ensures Feed(c, buf, sl) == (c, Err(CommandIdInvalid))
  {
  }

  /** `stats` finishes on its one byte, with no arguments and no key type, and the stage back at the start. */
  lemma FeedSimple(c: Context, buf: Bytes, sl: Slicing)
    requires c.stage == Init && c.idx <= |buf| && |buf| > 0 && buf[0] == Code(Stats)
    ensures Feed(c, buf, sl) == (c.(stage := Init), Ok(Some(Request(None, None, Stats))))
  {
    TryFromCode(Stats);
  }

  /** An empty buffer gives nothing yet and leaves a new context as it was. */
  lemma FeedEmpty(sl: Slicing)
    ensures Feed(NewContext(), [], sl) == (NewContext(), Ok(None))
  {
  }

  /** A context ready for a request: at the start, with no arguments collected and a pool of empty buffers. */
  predicate Ready(c: Context) {
    c.stage == Init && c.idx == 0 && c.bufArgs == Some([]) && Cleared(c.pool)
  }

  /** The bytes of a request of a command that is not simple: its id, the count, and each argument framed. */
  function Encoded(cmd: CommandType, args: seq<Bytes>): (r: Bytes)
    requires |args| < 256
    ensures |r| >= 2 && r[0] == Code(cmd) && r[1] == |args|
  {
    [Code(cmd), |args|] + ListItems(args)
  }

  predicate ArgsFit(args: seq<Bytes>) {
    |args| < 256 && forall i :: 0 <= i < |args| ==> FitsU32(args[i])
  }

  /** The header's two steps, from a ready context to the first argument. */
  lemma HeaderSteps(c: Context, cmd: CommandType, args: seq<Bytes>, buf: Bytes, sl: Slicing)
    requires Ready(c) && !IsSimple(cmd) && |args| < 256
    requires |buf| >= 2 && buf[0] == Code(cmd) && buf[1] == |args|
    ensures Feed(c, buf, sl).1 ==
      Feed(Context(c.pool, Some([]), 2, ArgumentParsing(|args|, cmd, None)), buf, sl).1
  {
    TryFromCode(cmd);
    var kind := c.(stage := KindStage(cmd, None), idx := 1);
    FeedNext(c, buf, sl, kind);
    FeedNext(kind, buf, sl, Context(c.pool, Some([]), 2, ArgumentParsing(|args|, cmd, None)));
  }

  /**
   * A buffer holding a command that is not simple but ending before its first
   * length prefix is whole gives nothing yet: the count byte and the prefix are
   * both checked against the buffer's end.
   */
  lemma ShortHeaderWaits(c: Context, cmd: CommandType, buf: Bytes, sl: Slicing)
    requires Ready(c) && !IsSimple(cmd) && 0 < |buf| < 6 && buf[0] == Code(cmd)
    ensures Feed(c, buf, sl).1 == Ok(None)
  {
    TryFromCode(cmd);
    var kind := c.(stage := KindStage(cmd, None), idx := 1);
    FeedNext(c, buf, sl, kind);
    if |buf| >= 2 {
      var counting := kind.(stage := ArgumentParsing(buf[1], cmd, None), idx := 2);
      FeedNext(kind, buf, sl, counting);
    }
  }

  /** What the source takes as an argument whose framing lies at `at`: the bytes after the length, or from the length on. */
  function ArgumentTaken(buf: Bytes, at: nat, arg: Bytes, sl: Slicing): Bytes
    requires at + 4 + |arg| <= |buf|
  {
    buf[at + PayloadOffset(sl)..at + PayloadOffset(sl) + |arg|]
  }

  /** The context after one argument is read back. */
  function AfterArgument(c: Context, taken: Bytes): (r: Context)
    requires c.bufArgs.Some?
    ensures r.stage == c.stage && r.bufArgs == Some(c.bufArgs.value + [taken])
  {
    c.(pool := P.Pull(c.pool).0, idx := c.idx + 4 + |taken|, bufArgs := Some(c.bufArgs.value + [taken]))
  }

  /**
   * One argument read back: the length prefix says how many bytes, and the
   * bytes taken start after the prefix or at it, as the slicing says.
   */
  lemma ArgumentRead(c: Context, buf: Bytes, arg: Bytes, sl: Slicing)
    requires c.stage.ArgumentParsing? && c.bufArgs.Some? && Cleared(c.pool) && FitsU32(arg)
    requires c.idx + 4 + |arg| <= |buf| && buf[c.idx..c.idx + 4 + |arg|] == ItemBytes(arg)
    ensures var taken := ArgumentTaken(buf, c.idx, arg, sl);
      var args := c.bufArgs.value + [taken];
      var next := c.(pool := P.Pull(c.pool).0, idx := c.idx + 4 + |arg|);
      Step(c, buf, sl) ==
        if |args| == c.stage.count then Ok((next.(bufArgs := None), Finished(Request(Some(args), c.stage.keyType, c.stage.cmd))))
        else Ok((next.(bufArgs := Some(args)), Next))
  {
    assert buf[c.idx..c.idx + 4] == ItemBytes(arg)[..4];
    ClearedKept(c, []);
    assert [] + ArgumentTaken(buf, c.idx, arg, sl) == ArgumentTaken(buf, c.idx, arg, sl);
  }

  /** The argument the framing means is the one after its prefix. */
  lemma TakenAfterPrefix(buf: Bytes, at: nat, arg: Bytes)
    requires at + 4 + |arg| <= |buf| && buf[at..at + 4 + |arg|] == ItemBytes(arg)
    ensures ArgumentTaken(buf, at, arg, AfterPrefix) == arg
  {
    assert buf[at + 4..at + 4 + |arg|] == ItemBytes(arg)[4..];
  }

  /** The last argument read back finishes the request with every argument collected. */
  lemma LastArgumentFed(c: Context, buf: Bytes, arg: Bytes, sl: Slicing)
    requires c.stage.ArgumentParsing? && c.bufArgs.Some? && Cleared(c.pool) && FitsU32(arg)
    requires c.idx + 4 + |arg| <= |buf| && buf[c.idx..c.idx + 4 + |arg|] == ItemBytes(arg)
    requires |c.bufArgs.value| + 1 == c.stage.count
    ensures Feed(c, buf, sl).1 ==
      Ok(Some(Request(Some(c.bufArgs.value + [ArgumentTaken(buf, c.idx, arg, sl)]), c.stage.keyType, c.stage.cmd)))
  {
    ArgumentRead(c, buf, arg, sl);
    var args := c.bufArgs.value + [ArgumentTaken(buf, c.idx, arg, sl)];
    var next := c.(pool := P.Pull(c.pool).0, idx := c.idx + 4 + |arg|, bufArgs := None);
    FeedFinished(c, buf, sl, next, Request(Some(args), c.stage.keyType, c.stage.cmd));
  }

  /** An argument that is not the last, read back as the framing means it, moves the parser on. */
  lemma ArgumentNext(c: Context, buf: Bytes, arg: Bytes)
    requires c.stage.ArgumentParsing? && c.bufArgs.Some? && Cleared(c.pool) && FitsU32(arg)
    requires c.idx + 4 + |arg| <= |buf| && buf[c.idx..c.idx + 4 + |arg|] == ItemBytes(arg)
    requires |c.bufArgs.value| + 1 != c.stage.count
    ensures Step(c, buf, AfterPrefix) == Ok((AfterArgument(c, arg), Next))
  {
    ArgumentRead(c, buf, arg, AfterPrefix);
    TakenAfterPrefix(buf, c.idx, arg);
  }

  /** Any other argument read back as the framing means it leaves the rest of the request to the next step. */
  lemma ArgumentFed(c: Context, buf: Bytes, arg: Bytes)
    requires c.stage.ArgumentParsing? && c.bufArgs.Some? && Cleared(c.pool) && FitsU32(arg)
    requires c.idx + 4 + |arg| <= |buf| && buf[c.idx..c.idx + 4 + |arg|] == ItemBytes(arg)
    requires |c.bufArgs.value| + 1 != c.stage.count
    ensures Feed(c, buf, AfterPrefix).1 == Feed(AfterArgument(c, arg), buf, AfterPrefix).1
  {
    ArgumentNext(c, buf, arg);
    FeedNext(c, buf, AfterPrefix, AfterArgument(c, arg));
  }

  /** The arguments after the first still fit. */
  lemma ArgsFitTail(todo: seq<Bytes>)
    requires |todo| > 0 && ArgsFit(todo)
    ensures FitsU32(todo[0]) && ArgsFit(todo[1..])
  {
    forall i | 0 <= i < |todo[1..]| ensures FitsU32(todo[1..][i]) {
      assert todo[1..][i] == todo[i + 1];
    }
  }

  /** Moving the first of the arguments still to come onto those collected keeps the whole list. */
  lemma ConsMoved(done: seq<Bytes>, todo: seq<Bytes>)
    requires |todo| > 0
    ensures (done + [todo[0]]) + todo[1..] == done + todo
  {
    assert [todo[0]] + todo[1..] == todo;
  }

  lemma ListItemsCons(todo: seq<Bytes>)
    requires |todo| > 0
    ensures ListItems(todo) == ItemBytes(todo[0]) + ListItems(todo[1..])
  {
  }

  /** Framed arguments at a position: the first one there, and the others after it. */
  lemma FirstItemAt(buf: Bytes, at: nat, todo: seq<Bytes>)
    requires |todo| > 0 && at + |ListItems(todo)| <= |buf| && buf[at..at + |ListItems(todo)|] == ListItems(todo)
    ensures at + 4 + |todo[0]| <= |buf| && buf[at..at + 4 + |todo[0]|] == ItemBytes(todo[0])
    ensures var rest := ListItems(todo[1..]);
      at + 4 + |todo[0]| + |rest| <= |buf| && buf[at + 4 + |todo[0]|..at + 4 + |todo[0]| + |rest|] == rest
  {
    var whole, first, rest := ListItems(todo), ItemBytes(todo[0]), ListItems(todo[1..]);
    ListItemsCons(todo);
    assert at + |first| + |rest| == at + |whole|;
    SliceSplit(buf, at, first, rest);
  }

  /** The arguments still to come, framed at the read position of a context collecting them. */
  predicate Collecting(c: Context, buf: Bytes, todo: seq<Bytes>) {
    c.stage.ArgumentParsing? && c.stage.keyType.None? && c.bufArgs.Some? && Cleared(c.pool) &&
    |todo| > 0 && |c.bufArgs.value| + |todo| == c.stage.count && ArgsFit(todo) &&
    c.idx + |ListItems(todo)| <= |buf| && buf[c.idx..c.idx + |ListItems(todo)|] == ListItems(todo)
  }

  /** Reading one of several arguments leaves a context collecting the others. */
  lemma CollectingStep(c: Context, buf: Bytes, todo: seq<Bytes>)
    requires Collecting(c, buf, todo) && |todo| > 1
    ensures Collecting(AfterArgument(c, todo[0]), buf, todo[1..])
    ensures AfterArgument(c, todo[0]).bufArgs.value + todo[1..] == c.bufArgs.value + todo
  {
    ArgsFitTail(todo);
    FirstItemAt(buf, c.idx, todo);
    ConsMoved(c.bufArgs.value, todo);
    ClearedKept(c, []);
  }

  /** Reading one of several arguments leaves the outcome to the steps after it. */
  lemma FeedStep(c: Context, buf: Bytes, todo: seq<Bytes>)
    requires Collecting(c, buf, todo) && |todo| > 1
    ensures Feed(c, buf, AfterPrefix).1 == Feed(AfterArgument(c, todo[0]), buf, AfterPrefix).1
  {
    ArgsFitTail(todo);
    FirstItemAt(buf, c.idx, todo);
    ArgumentFed(c, buf, todo[0]);
  }

  /** The one argument still to come finishes the request. */
  lemma OnlyArgumentRead(c: Context, buf: Bytes, todo: seq<Bytes>)
    requires Collecting(c, buf, todo) && |todo| == 1
    ensures Feed(c, buf, AfterPrefix).1 == Ok(Some(Request(Some(c.bufArgs.value + todo), None, c.stage.cmd)))
  {
    ArgsFitTail(todo);
    FirstItemAt(buf, c.idx, todo);
    LastArgumentFed(c, buf, todo[0], AfterPrefix);
    TakenAfterPrefix(buf, c.idx, todo[0]);
    assert todo == [todo[0]];
  }

  /**
   * The arguments still to come, framed at the read position, are all read back:
   * the request finishes with every argument.
   */
  lemma {:induction false} ArgumentsRead(c: Context, buf: Bytes, todo: seq<Bytes>)
    requires Collecting(c, buf, todo)
    ensures Feed(c, buf, AfterPrefix).1 == Ok(Some(Request(Some(c.bufArgs.value + todo), None, c.stage.cmd)))
    decreases |todo|
  {
    if |todo| > 1 {
      CollectingStep(c, buf, todo);
      FeedStep(c, buf, todo);
      ArgumentsRead(AfterArgument(c, todo[0]), buf, todo[1..]);
    } else {
      OnlyArgumentRead(c, buf, todo);
    }
  }

  /** The argument list of an encoded request lies right after its two header bytes. */
  lemma EncodedFraming(cmd: CommandType, args: seq<Bytes>, rest: Bytes)
    requires |args| < 256
    ensures var buf := Encoded(cmd, args) + rest;
      2 + |ListItems(args)| <= |buf| && buf[2..2 + |ListItems(args)|] == ListItems(args)
  {
    SliceMiddle([Code(cmd), |args|], ListItems(args), rest);
  }

  /**
   * A ready context (a new one, or one reset after a request) reads the bytes
   * of a request back to that request, whatever follows them in the buffer.
   */
  lemma FeedEncoded(c: Context, cmd: CommandType, args: seq<Bytes>, rest: Bytes)
    requires Ready(c) && !IsSimple(cmd) && 0 < |args| && ArgsFit(args)
    ensures Feed(c, Encoded(cmd, args) + rest, AfterPrefix).1 == Ok(Some(Request(Some(args), None, cmd)))
  {
    var buf := Encoded(cmd, args) + rest;
    HeaderSteps(c, cmd, args, buf, AfterPrefix);
    EncodedFraming(cmd, args, rest);
    var collecting := Context(c.pool, Some([]), 2, ArgumentParsing(|args|, cmd, None));
    assert Collecting(collecting, buf, args);
    ArgumentsRead(collecting, buf, args);
    assert [] + args == args;
  }

  /** A new context is ready, and so is any context after a reset. */
  lemma ReadyAfterReset(c: Context, args: seq<Bytes>)
    requires Cleared(c.pool)
    ensures Ready(NewContext()) && Ready(Reset(c, args))
  {
    ClearedKept(c, args);
  }

  /**
   * As the source reads it, the one argument of a request is the bytes starting
   * at its length prefix, as many as the length says: the prefix and the first
   * bytes of the argument.
   */
  lemma OneArgumentAsWritten(cmd: CommandType, arg: Bytes, rest: Bytes)
    requires !IsSimple(cmd) && FitsU32(arg)
    ensures var buf := Encoded(cmd, [arg]) + rest;
      Feed(NewContext(), buf, AtPrefix).1 == Ok(Some(Request(Some([(ItemBytes(arg) + rest)[..|arg|]]), None, cmd)))
  {
    var buf := Encoded(cmd, [arg]) + rest;
    var c := NewContext();
    ReadyAfterReset(c, []);
    var collecting := Context(c.pool, Some([]), 2, ArgumentParsing(1, cmd, None));
    OneArgumentHeader(cmd, arg, rest);
    LastArgumentFed(collecting, buf, arg, AtPrefix);
    var taken := ArgumentTaken(buf, 2, arg, AtPrefix);
    assert taken == buf[2..][..|arg|];
    assert [] + [taken] == [taken];
  }

  /** The header of a one-argument request, and the argument's framing after it. */
  lemma OneArgumentHeader(cmd: CommandType, arg: Bytes, rest: Bytes)
    requires !IsSimple(cmd) && FitsU32(arg)
    ensures var buf := Encoded(cmd, [arg]) + rest;
      && buf[2..] == ItemBytes(arg) + rest
      && 2 + |ItemBytes(arg)| <= |buf| && buf[2..2 + |ItemBytes(arg)|] == ItemBytes(arg)
      && Feed(NewContext(), buf, AtPrefix).1 ==
           Feed(Context(NewContext().pool, Some([]), 2, ArgumentParsing(1, cmd, None)), buf, AtPrefix).1
  {
    var buf := Encoded(cmd, [arg]) + rest;
    assert ListItems([arg]) == ItemBytes(arg) + [];
    assert buf == [Code(cmd), 1] + (ItemBytes(arg) + rest);
    ReadyAfterReset(NewContext(), []);
    HeaderSteps(NewContext(), cmd, [arg], buf, AtPrefix);
  }

  /**
   * The request the source's own example feeds, `increment` with the argument
   * "foo": the source hands out [0, 0, 0], the first three bytes of the length
   * prefix, where the framing means "foo".
   */
  lemma FooAsWrittenAndMeant(buf: Bytes)
    requires buf == [0, 1, 0, 0, 0, 3, 102, 111, 111]
    ensures Feed(NewContext(), buf, AtPrefix).1 == Ok(Some(Request(Some([[0, 0, 0]]), None, Increment)))
    ensures Feed(NewContext(), buf, AfterPrefix).1 == Ok(Some(Request(Some([[102, 111, 111]]), None, Increment)))
  {
    var foo: Bytes := [102, 111, 111];
    assert U32BE(3) == [0, 0, 0, 3] by {
      BEOfFromBE([0, 0, 0, 3]);
      FromBELastByte([0, 0, 0, 3]);
    }
    assert ItemBytes(foo) == [0, 0, 0, 3] + foo;
    assert ListItems([foo]) == ItemBytes(foo) + ListItems([]);
    assert buf == Encoded(Increment, [foo]) + [];
    OneArgumentAsWritten(Increment, foo, []);
    assert (ItemBytes(foo) + [])[..3] == [0, 0, 0];
    ReadyAfterReset(NewContext(), []);
    FeedEncoded(NewContext(), Increment, [foo], []);
  }
}
