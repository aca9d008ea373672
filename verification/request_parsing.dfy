/**
 * What the intended request parser computes: it frames every request the encoder
 * writes, recording for each argument the position `arg` reads it back from, and
 * reads no further than the request it frames.
 */
module RequestParsing {
  import opened Bytes
  import opened Wrappers
  import opened Values
  import opened CommandIds
  import opened Requests
  import opened Responses
  import opened Layout
  import opened RequestParser

  /** A step to a further context leaves the outcome of feeding the same buffer unchanged. */
  lemma FeedNext(ctx: Context, buf: Bytes, next: Context)
    requires ctx.idx <= |buf| && Step(ctx, buf) == Next(next)
    ensures Feed(ctx, buf) == Feed(next, buf)
  {
  }

  /** A step that finishes a request ends the feed with it and resets the context. */
  lemma FeedFinished(ctx: Context, buf: Bytes, positions: seq<nat>, cmd: CommandId, keyType: Option<KeyType>)
    requires ctx.idx <= |buf| && Step(ctx, buf) == Finished(positions, cmd, keyType)
    ensures Feed(ctx, buf) == (New, Done(Request(buf, cmd, keyType, positions)))
  {
  }

  /** Turn `i` of a run through the contexts `plan(0)`, `plan(1)`, ...: it moves on to the next, or finishes `req` on the last turn. */
  predicate Turns(buf: Bytes, plan: nat -> Context, count: nat, req: Request, i: nat) {
    plan(i).idx <= |buf|
    && Step(plan(i), buf) == if i + 1 < count then Next(plan(i + 1)) else Finished(req.positions, req.cmd, req.keyType)
  }

  /** A run of turns that ends by finishing a request is what feeding the buffer from `plan(k)` does. */
  lemma {:induction false} FeedRun(buf: Bytes, plan: nat -> Context, count: nat, req: Request, k: nat)
    requires k < count && req.buf == buf
    requires forall i :: k <= i < count ==> Turns(buf, plan, count, req, i)
    ensures Feed(plan(k), buf) == (New, Done(req))
    decreases count - k
  {
    assert Turns(buf, plan, count, req, k);
    if k < count - 1 {
      FeedNext(plan(k), buf, plan(k + 1));
      FeedRun(buf, plan, count, req, k + 1);
    } else {
      FeedFinished(plan(k), buf, req.positions, req.cmd, req.keyType);
    }
  }

  // The header.

  /** The first byte of a request that is not simple leads to the argument count. */
  lemma HeaderStep(buf: Bytes, cmd: CommandId, keyType: Option<KeyType>, count: uint8)
    requires !IsSimple(cmd) && HeaderLength(keyType) <= |buf|
    requires buf[..HeaderLength(keyType)] == Header(cmd, keyType, count)
    ensures Step(New, buf) == Next(Context(HeaderLength(keyType) - 1, [], KindStage(cmd, keyType)))
  {
    var header := Header(cmd, keyType, count);
    assert buf[0] == header[0];
    if keyType.Some? {
      assert buf[1] == header[1];
      KeyedStep(buf, cmd, keyType.value);
    } else {
      UnkeyedStep(buf, cmd);
    }
  }

  lemma KeyedStep(buf: Bytes, cmd: CommandId, k: KeyType)
    requires !IsSimple(cmd) && |buf| >= 2 && buf[0] == 128 + Code(cmd) && buf[1] == KeyTypeCode(k)
    ensures Step(New, buf) == Next(Context(2, [], KindStage(cmd, Some(k))))
  {
    TryFromCode(cmd);
    KeyTypeRoundTrip(k);
  }

  lemma UnkeyedStep(buf: Bytes, cmd: CommandId)
    requires !IsSimple(cmd) && |buf| >= 1 && buf[0] == Code(cmd)
    ensures Step(New, buf) == Next(Context(1, [], KindStage(cmd, None)))
  {
    TryFromCode(cmd);
  }

  /** The argument count byte finishes a request without arguments and otherwise starts on the arguments. */
  lemma CountRead(buf: Bytes, cmd: CommandId, keyType: Option<KeyType>, count: uint8)
    requires !IsSimple(cmd) && HeaderLength(keyType) <= |buf|
    requires buf[..HeaderLength(keyType)] == Header(cmd, keyType, count)
    ensures Step(Context(HeaderLength(keyType) - 1, [], KindStage(cmd, keyType)), buf) ==
      if count == 0 then Finished([], cmd, keyType)
      else Next(Context(HeaderLength(keyType), [], ArgumentStage(count, cmd, keyType)))
  {
    var h := HeaderLength(keyType);
    assert buf[h - 1] == Header(cmd, keyType, count)[h - 1];
  }

  /** A simple command is finished on its byte. */
  lemma SimpleStep(buf: Bytes, cmd: CommandId)
    requires IsSimple(cmd) && |buf| > 0 && buf[0] == Code(cmd)
    ensures Step(New, buf) == Finished([], cmd, None)
  {
    TryFromCode(cmd);
  }

  // The arguments.

  /** One argument read off the buffer's bytes. */
  lemma ArgumentRead(buf: Bytes, idx: nat, arg: Bytes, done: seq<nat>, count: uint8, cmd: CommandId, keyType: Option<KeyType>)
    requires idx + 4 + |arg| <= |buf| && FromBE(buf[idx..idx + 4]) == |arg|
    requires |done| < count
    ensures Step(Context(idx, done, ArgumentStage(count, cmd, keyType)), buf) ==
      if |done| + 1 < count then Next(Context(idx + 4 + |arg|, done + [idx + 3 + |arg|], ArgumentStage(count, cmd, keyType)))
      else Finished(done + [idx + 3 + |arg|], cmd, keyType)
  {
  }

  /** Where each argument's length starts: after the header and the arguments before it. */
  function Offsets(h: nat, args: seq<Bytes>): (r: seq<nat>)
    ensures |r| == |args| && forall i :: 0 <= i < |args| ==> r[i] == h + |ListItems(args[..i])|
  {
    seq(|args|, i requires 0 <= i < |args| => h + |ListItems(args[..i])|)
  }

  /** The parser's contexts before each argument: its offset, and the positions of the arguments before it. */
  function ArgContexts(offsets: seq<nat>, positions: seq<nat>, cmd: CommandId, keyType: Option<KeyType>): (r: seq<Context>)
    requires |offsets| == |positions| < 256
    ensures |r| == |offsets|
    ensures forall i :: 0 <= i < |r| ==> r[i] == Context(offsets[i], positions[..i], ArgumentStage(|offsets|, cmd, keyType))
  {
    seq(|offsets|, i requires 0 <= i < |offsets| => Context(offsets[i], positions[..i], ArgumentStage(|offsets|, cmd, keyType)))
  }

  /** A run through the contexts `ctxs`, ending in the context that never moves. */
  function PlanOf(ctxs: seq<Context>): nat -> Context {
    (i: nat) => if i < |ctxs| then ctxs[i] else New
  }

  /** The buffer holds, at `at`, the 4-byte length of `arg` followed by as many bytes. */
  predicate ArgLengthAt(buf: Bytes, at: nat, arg: Bytes) {
    at + 4 + |arg| <= |buf| && FromBE(buf[at..at + 4]) == |arg|
  }

  /**
   * What reading the `i`-th argument relies on: its length is where the context
   * before it points, the argument fits the buffer, and the context after it (or
   * the request's positions, on the last argument) is that context moved past it.
   */
  predicate ArgTurnReady(buf: Bytes, ctxs: seq<Context>, args: seq<Bytes>, req: Request, i: nat) {
    && i < |args| == |ctxs| < 256
    && var c := ctxs[i];
    && c.stage == ArgumentStage(|args|, req.cmd, req.keyType) && |c.positions| == i
    && ArgLengthAt(buf, c.idx, args[i])
    && (i + 1 < |args| ==> ctxs[i + 1] == Context(c.idx + 4 + |args[i]|, c.positions + [c.idx + 3 + |args[i]|], c.stage))
    && (i + 1 == |args| ==> req.positions == c.positions + [c.idx + 3 + |args[i]|])
  }

  /** The offsets and positions of the arguments agree with each other and with the buffer at argument `i`. */
  predicate OffsetReady(buf: Bytes, offsets: seq<nat>, positions: seq<nat>, args: seq<Bytes>, i: nat) {
    && i < |args| == |offsets| == |positions| < 256
    && ArgLengthAt(buf, offsets[i], args[i])
    && positions[i] == offsets[i] + 3 + |args[i]|
    && (i + 1 < |args| ==> offsets[i + 1] == offsets[i] + 4 + |args[i]|)
  }

  lemma ArgTurnFacts(buf: Bytes, offsets: seq<nat>, positions: seq<nat>, args: seq<Bytes>, cmd: CommandId, keyType: Option<KeyType>, i: nat)
    requires OffsetReady(buf, offsets, positions, args, i)
    ensures ArgTurnReady(buf, ArgContexts(offsets, positions, cmd, keyType), args, Request(buf, cmd, keyType, positions), i)
  {
    assert positions[..i + 1] == positions[..i] + [positions[i]];
    if i + 1 == |args| {
      assert positions[..i + 1] == positions;
    }
  }

  /** Offsets and positions computed from the arguments, at argument `i`. */
  lemma OffsetFacts(buf: Bytes, h: nat, args: seq<Bytes>, i: nat)
    requires ArgsFit(args) && HoldsAt(buf, h, ListItems(args)) && i < |args|
    ensures OffsetReady(buf, Offsets(h, args), PositionsFrom(h, args), args, i)
  {
    ArgLengthHeld(buf, h, args, i);
    PositionAt(h, args, i);
    if i + 1 < |args| {
      ListItemsGrow(args, i);
    }
  }

  /** A framed argument's length reads back, and the argument fits the buffer. */
  lemma LengthHeld(buf: Bytes, at: nat, arg: Bytes)
    requires FitsU32(arg) && HoldsAt(buf, at, ItemBytes(arg))
    ensures ArgLengthAt(buf, at, arg)
  {
    var r := ItemBytes(arg);
    HoldsAtPart(buf, at, r, 0, 4);
    HoldsAtPart(buf, at, r, 4, |r|);
    assert r[0..4] == U32BE(AsU32(|arg|));
  }

  /** Each argument's length is framed after the first `i` arguments, and the argument fits the buffer. */
  lemma ArgLengthHeld(buf: Bytes, h: nat, args: seq<Bytes>, i: nat)
    requires ArgsFit(args) && HoldsAt(buf, h, ListItems(args)) && i < |args|
    ensures ArgLengthAt(buf, h + |ListItems(args[..i])|, args[i])
  {
    assert FitsU32(args[i]);
    ListPosition(buf, h, args, i);
    LengthHeld(buf, h + |ListItems(args[..i])|, args[i]);
  }

  /** Reading the `i`-th argument moves on to the next or finishes the request. */
  lemma ArgTurn(buf: Bytes, ctxs: seq<Context>, args: seq<Bytes>, req: Request, i: nat)
    requires ArgTurnReady(buf, ctxs, args, req, i)
    ensures Turns(buf, PlanOf(ctxs), |args|, req, i)
  {
    var c := ctxs[i];
    ArgumentRead(buf, c.idx, args[i], c.positions, |args|, req.cmd, req.keyType);
  }

  /** Reading argument after argument, each where the previous one ends, finishes the request. */
  lemma ArgRun(buf: Bytes, ctxs: seq<Context>, args: seq<Bytes>, req: Request)
    requires 0 < |args| == |ctxs| && req.buf == buf
    requires forall i :: 0 <= i < |args| ==> ArgTurnReady(buf, ctxs, args, req, i)
    ensures Feed(ctxs[0], buf) == (New, Done(req))
  {
    assert ArgTurnReady(buf, ctxs, args, req, 0);
    forall i | 0 <= i < |args| ensures Turns(buf, PlanOf(ctxs), |args|, req, i) {
      ArgTurn(buf, ctxs, args, req, i);
    }
    FeedRun(buf, PlanOf(ctxs), |args|, req, 0);
  }

  /** The framed arguments after a header are read one by one into the request. */
  lemma ArgsDecode(buf: Bytes, h: nat, args: seq<Bytes>, cmd: CommandId, keyType: Option<KeyType>)
    requires ArgsFit(args) && |args| > 0 && HoldsAt(buf, h, ListItems(args))
    ensures Feed(Context(h, [], ArgumentStage(|args|, cmd, keyType)), buf) ==
      (New, Done(Request(buf, cmd, keyType, PositionsFrom(h, args))))
  {
    var offsets := Offsets(h, args);
    var positions := PositionsFrom(h, args);
    var ctxs := ArgContexts(offsets, positions, cmd, keyType);
    var req := Request(buf, cmd, keyType, positions);
    forall i | 0 <= i < |args| ensures ArgTurnReady(buf, ctxs, args, req, i) {
      OffsetFacts(buf, h, args, i);
      ArgTurnFacts(buf, offsets, positions, args, cmd, keyType, i);
    }
    assert args[..0] == [];
    ArgRun(buf, ctxs, args, req);
  }

  /** The header of an encoded request sits at its start. */
  lemma HeaderOfEncoded(cmd: CommandId, keyType: Option<KeyType>, args: seq<Bytes>, rest: Bytes)
    requires !IsSimple(cmd) && ArgsFit(args)
    ensures HeaderLength(keyType) <= |Encode(cmd, keyType, args) + rest|
    ensures (Encode(cmd, keyType, args) + rest)[..HeaderLength(keyType)] == Header(cmd, keyType, |args|)
  {
    var header := Header(cmd, keyType, |args|);
    AppendAssoc(header, ListItems(args), rest);
    assert (header + (ListItems(args) + rest))[..|header|] == header;
  }

  /**
   * Feeding the encoding of a request, followed by anything, frames exactly that
   * request: its command, its key type, and the positions its arguments are read from.
   */
  lemma FeedEncoded(cmd: CommandId, keyType: Option<KeyType>, args: seq<Bytes>, rest: Bytes)
    requires ArgsFit(args) && (IsSimple(cmd) ==> keyType.None? && args == [])
    ensures Feed(New, Encode(cmd, keyType, args) + rest) ==
      (New, Done(Parsed(Encode(cmd, keyType, args) + rest, cmd, keyType, args)))
  {
    var buf := Encode(cmd, keyType, args) + rest;
    var h := HeaderLength(keyType);
    if IsSimple(cmd) {
      assert buf[0] == Code(cmd);
      SimpleStep(buf, cmd);
      FeedFinished(New, buf, [], cmd, None);
    } else {
      HeaderOfEncoded(cmd, keyType, args, rest);
      HeaderStep(buf, cmd, keyType, |args|);
      FeedNext(New, buf, Context(h - 1, [], KindStage(cmd, keyType)));
      CountRead(buf, cmd, keyType, |args|);
      if |args| == 0 {
        FeedFinished(Context(h - 1, [], KindStage(cmd, keyType)), buf, [], cmd, keyType);
      } else {
        FeedNext(Context(h - 1, [], KindStage(cmd, keyType)), buf, Context(h, [], ArgumentStage(|args|, cmd, keyType)));
        EncodedHolds(cmd, keyType, args, rest);
        ArgsDecode(buf, h, args, cmd, keyType);
      }
    }
  }

  /** The arguments of a request framed off its encoding read back as the arguments encoded. */
  lemma FeedEncodedArgs(cmd: CommandId, keyType: Option<KeyType>, args: seq<Bytes>, rest: Bytes)
    requires ArgsFit(args) && !IsSimple(cmd) && |args| > 0
    ensures Feed(New, Encode(cmd, keyType, args) + rest).1.Done?
    ensures Args(Feed(New, Encode(cmd, keyType, args) + rest).1.request, Unbounded, Unbounded) == Some(args)
  {
    FeedEncoded(cmd, keyType, args, rest);
    ArgsOfEncoded(cmd, keyType, args, rest);
  }
}
