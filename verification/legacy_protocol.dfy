/**
 * The oldest request parser: a command id, an argument count and framed
 * arguments, read from a buffer that may hold only part of a request. Unlike
 * its successor it checks the buffer's length only for emptiness and for a
 * whole argument, so a buffer cut short inside the header or inside a length
 * prefix makes it index out of bounds; the model names that outcome `Panicked`.
 */
module LegacyProtocol {
  import opened Bytes
  import opened Wrappers
  import opened LegacyKinds
  import P = Pools

  /** What a finished parse hands out: the arguments, if any, and the command. */
  datatype CommandInfo = CommandInfo(arguments: Option<seq<Bytes>>, kind: CommandType)

  datatype ParseError = CommandTypeInvalid

  datatype Stage = Init | KindStage(kind: CommandType) | ArgumentParsing(count: uint8, kind: CommandType)

  datatype Context = Context(pool: P.Pool<Bytes>, bufArgs: Option<seq<Bytes>>, idx: nat, stage: Stage)

  /** How a call of `feed` ends: more bytes needed, a command, a refusal, or an index out of bounds. */
  datatype Outcome = Waiting | Parsed(info: CommandInfo) | Refused(error: ParseError) | Panicked

  /** One pass of the parsing loop: go round again with a new context, or return with one. */
  datatype Move = Continue(next: Context) | Stop(ctx: Context, outcome: Outcome)

  /** `Context::new`: a pool holding one empty buffer, no arguments collected, at the start. */
  function NewContext(): (r: Context)
    ensures r.pool == P.Pool([], [[]]) && r.bufArgs == Some([]) && r.idx == 0 && r.stage == Init
  {
    Context(P.New(1, []), Some([]), 0, Init)
  }

  /** `reset_light`: back to the start, keeping the pool and the arguments. */
  function ResetLight(c: Context): (r: Context)
    ensures r.idx == 0 && r.stage == Init && r.pool == c.pool && r.bufArgs == c.bufArgs
  {
    c.(idx := 0, stage := Init)
  }

  /**
   * `Context::reset`: back to the start; each buffer of `args` is emptied and
   * pushed onto the pool, and the emptied list becomes the collected arguments.
   */
  function Reset(c: Context, args: seq<Bytes>): (r: Context)
    ensures r.stage == Init && r.idx == 0 && r.bufArgs == Some([])
    ensures |r.pool.items| == |c.pool.items| + |args| && r.pool.init == c.pool.init
    ensures r.pool.items[..|c.pool.items|] == c.pool.items
    ensures forall i :: |c.pool.items| <= i < |r.pool.items| ==> r.pool.items[i] == []
  {
    Context(c.pool.(items := c.pool.items + seq(|args|, _ => [])), Some([]), 0, Init)
  }

  function Rank(s: Stage): nat {
    match s
    case Init => 2
    case KindStage(_) => 1
    case ArgumentParsing(_, _) => 0
  }

  /** What is left to read, weighted so that every stage change counts as progress. */
  function Measure(c: Context, buf: Bytes): nat {
    (if c.idx <= |buf| then |buf| - c.idx else 0) * 3 + Rank(c.stage)
  }

  /**
   * The first byte names the command. The source reads it at index 0 whatever
   * the read position is. A simple command is returned at once, after
   * `reset_light`; any other moves on to the count.
   */
  function StageInit(c: Context, byte: uint8): (r: Move)
    ensures TryFromU8(byte).None? <==> r == Stop(c, Refused(CommandTypeInvalid))
  {
    match TryFromU8(byte)
    case None => Stop(c, Refused(CommandTypeInvalid))
    case Some(kind) =>
      if IsSimple(kind) then Stop(ResetLight(c), Parsed(CommandInfo(None, kind)))
      else Continue(c.(stage := KindStage(kind), idx := c.idx + 1))
  }

  /** The byte at the read position is the argument count; past the end the read panics. */
  function StageKind(c: Context, buf: Bytes, kind: CommandType): (r: Move)
    ensures c.idx >= |buf| <==> r == Stop(c, Panicked)
  {
    if c.idx >= |buf| then Stop(c, Panicked)
    else Continue(c.(stage := ArgumentParsing(buf[c.idx], kind), idx := c.idx + 1))
  }

  /**
   * After a break out of the loop: the stage goes back to the start (the read
   * position does not), and the collected arguments are taken out of the
   * context. They are never empty here, so the source's emptiness check
   * always takes them.
   */
  function Finish(c: Context, args: seq<Bytes>, kind: CommandType): Move
    requires |args| > 0
  {
    Stop(c.(stage := Init, bufArgs := None), Parsed(CommandInfo(Some(args), kind)))
  }

  /**
   * One argument: four bytes of big-endian length at the read position (past
   * the end, the read panics); if fewer bytes than the length remain from the
   * read position, wait; otherwise the argument is taken as that many bytes
   * starting at the read position, into a buffer pulled from the pool, and the
   * read position moves past the prefix and the argument. The loop breaks when
   * the number of arguments, cast to `u8`, equals the count.
   */
  function StageArguments(c: Context, buf: Bytes, count: uint8, kind: CommandType): (r: Move)
    ensures c.idx + 4 > |buf| ==> r == Stop(c, Panicked)
    ensures r.Continue? ==>
      c.idx + 4 <= |buf| && r.next.idx == c.idx + 4 + FromBE(buf[c.idx..c.idx + 4]) &&
      c.idx + FromBE(buf[c.idx..c.idx + 4]) <= |buf| && r.next.stage == c.stage && r.next.bufArgs.Some?
  {
    if c.idx + 4 > |buf| then Stop(c, Panicked)
    else
      var argLen := U32FromBE(buf[c.idx..c.idx + 4]);
      if |buf| - c.idx < argLen then Stop(c, Waiting)
      else
        var (pool, pooled) := P.Pull(c.pool);
        match c.bufArgs
        case None => Stop(c.(pool := pool), Panicked)
        case Some(collected) =>
          var args := collected + [pooled + buf[c.idx..c.idx + argLen]];
          var next := c.(pool := pool, bufArgs := Some(args), idx := c.idx + 4 + argLen);
          if |args| % 256 == count as int then Finish(next, args, kind) else Continue(next)
  }

  /** One pass of the loop in `Context::feed`, on a buffer known not to be empty. */
  function Step(c: Context, buf: Bytes): (r: Move)
    requires |buf| > 0
    ensures r.Continue? ==> Measure(r.next, buf) < Measure(c, buf) && r.next.stage != Init
    ensures r.Stop? && r.outcome.Refused? ==> r.ctx == c && c.stage == Init
    ensures r.Stop? && r.outcome.Parsed? ==>
      (r.outcome.info.arguments.None? ==> IsSimple(r.outcome.info.kind)) &&
      (r.outcome.info.arguments.Some? ==> |r.outcome.info.arguments.value| > 0)
  {
    match c.stage
    case Init => StageInit(c, buf[0])
    case KindStage(kind) => StageKind(c, buf, kind)
    case ArgumentParsing(count, kind) => StageArguments(c, buf, count, kind)
  }

  /**
   * The loop itself. Only the first pass can refuse, so a refusal leaves the
   * context as it was; a command handed out without arguments is a simple one,
   * and one handed out with arguments has at least one.
   */
  function Run(c: Context, buf: Bytes): (r: (Context, Outcome))
    requires |buf| > 0
    ensures r.1.Refused? ==> r.0 == c && c.stage == Init
    ensures r.1.Parsed? ==>
      (r.1.info.arguments.None? ==> IsSimple(r.1.info.kind)) &&
      (r.1.info.arguments.Some? ==> |r.1.info.arguments.value| > 0)
    decreases Measure(c, buf)
  {
    match Step(c, buf)
    case Continue(next) => Run(next, buf)
    case Stop(ctx, outcome) => (ctx, outcome)
  }

  /**
   * `Context::feed`: an empty buffer waits; otherwise the loop runs until it
   * returns. A refusal leaves the context as it was.
   */
  function Feed(c: Context, buf: Bytes): (r: (Context, Outcome))
    ensures |buf| == 0 ==> r == (c, Waiting)
    ensures r.1.Refused? ==> r.0 == c
    ensures r.1.Parsed? ==>
      (r.1.info.arguments.None? ==> IsSimple(r.1.info.kind)) &&
      (r.1.info.arguments.Some? ==> |r.1.info.arguments.value| > 0)
  {
    if |buf| == 0 then (c, Waiting) else Run(c, buf)
  }
}
