/**
 * The earlier crate's request: the command, an optional key type and the
 * arguments as owned byte strings, and the incremental parser that builds one
 * from a byte stream, taking argument buffers from a pool and handing them back
 * on reset.
 *
 * The earlier crate has no key type table of its own in this revision; the
 * engine's (`Values.KeyTypeTryFromU8`, codes 0 to 7) stands in for it.
 */
module LegacyRequests {
  import opened Bytes
  import opened Wrappers
  import opened Values
  import opened LegacyCommandIds
  import P = Pools

  datatype Request = Request(args: Option<seq<Bytes>>, keyType: Option<KeyType>, kind: CommandType)

  /** `Request::new`: no key type. */
  function New(kind: CommandType, args: Option<seq<Bytes>>): (r: Request)
    ensures r.args == args && r.keyType.None? && r.kind == kind
  {
    Request(args, None, kind)
  }

  /** `Request::new_with_type`. */
  function NewWithType(kind: CommandType, args: Option<seq<Bytes>>, keyType: KeyType): (r: Request)
    ensures r.args == args && r.keyType == Some(keyType) && r.kind == kind
  {
    Request(args, Some(keyType), kind)
  }

  /** `Request::arg` with an index: the argument there, if the request has arguments and enough of them. */
  function Arg(r: Request, i: nat): (a: Option<Bytes>)
    ensures a.Some? <==> r.args.Some? && i < |r.args.value|
    ensures a.Some? ==> a.value == r.args.value[i]
  {
    if r.args.Some? && i < |r.args.value| then Some(r.args.value[i]) else None
  }

  /** `Request::arg` with a range `lo..hi`: those arguments, if the range lies within them. */
  function ArgRange(r: Request, lo: nat, hi: nat): (a: Option<seq<Bytes>>)
    ensures a.Some? <==> r.args.Some? && lo <= hi <= |r.args.value|
    ensures a.Some? ==> |a.value| == hi - lo && forall i :: 0 <= i < hi - lo ==> Arg(r, lo + i) == Some(a.value[i])
  {
    if r.args.Some? && lo <= hi <= |r.args.value| then Some(r.args.value[lo..hi]) else None
  }

  /** Where the arguments after the key start: 1 for a command with a key, 0 otherwise. */
  function KeyStart(c: CommandType): nat {
    if HasKey(c) then 1 else 0
  }

  /**
   * `Request::flatten_args`: the arguments after the key, one after the other.
   * None without arguments, and None for a keyed command whose arguments are empty.
   */
  function FlattenArgs(r: Request): (f: Option<Bytes>)
    ensures f.Some? <==> r.args.Some? && KeyStart(r.kind) <= |r.args.value|
  {
    if r.args.Some? && KeyStart(r.kind) <= |r.args.value| then Some(Concat(r.args.value[KeyStart(r.kind)..])) else None
  }

  /** `Request::key`: the first argument, for a command that has a key. */
  function Key(r: Request): (k: Option<Bytes>)
    ensures k.Some? <==> HasKey(r.kind) && Arg(r, 0).Some?
    ensures k.Some? ==> k == Arg(r, 0)
  {
    if !HasKey(r.kind) then None else Arg(r, 0)
  }

  /**
   * A keyed request's arguments are its key followed by what `flatten_args`
   * gives; for a command without a key, `flatten_args` is every argument.
   */
  lemma KeyThenFlattened(r: Request)
    requires r.args.Some?
    ensures HasKey(r.kind) && |r.args.value| > 0 ==>
      FlattenArgs(r).Some? && Key(r).value + FlattenArgs(r).value == Concat(r.args.value)
    ensures !HasKey(r.kind) ==> FlattenArgs(r) == Some(Concat(r.args.value))
  {
    assert r.args.value[0..] == r.args.value;
  }

  /** Flattening the arguments of `args + more` after the key appends the flattened `more`. */
  lemma FlattenGrows(kind: CommandType, args: seq<Bytes>, more: seq<Bytes>)
    requires KeyStart(kind) <= |args|
    ensures FlattenArgs(Request(Some(args + more), None, kind)).value ==
      FlattenArgs(Request(Some(args), None, kind)).value + Concat(more)
  {
    var k := KeyStart(kind);
    assert (args + more)[k..] == args[k..] + more;
    ConcatAppend(args[k..], more);
  }

  // The parser.

  datatype ParseError = CommandIdInvalid | KeyTypeInvalid

  datatype Stage =
    | Init
    | KindStage(cmd: CommandType, keyType: Option<KeyType>)
    | ArgumentParsing(count: uint8, cmd: CommandType, keyType: Option<KeyType>)

  /**
   * The parser's state: the pool of argument buffers, the arguments collected so
   * far (None once they were handed out with a request), the read position, and
   * the stage.
   */
  datatype Context = Context(pool: P.Pool<Bytes>, bufArgs: Option<seq<Bytes>>, idx: nat, stage: Stage)

  datatype Conclusion = Finished(req: Request) | Incomplete | Next

  /**
   * Where an argument's bytes begin relative to its length prefix: at the prefix
   * itself, as the source reads them, or after it, as the framing means.
   */
  datatype Slicing = AtPrefix | AfterPrefix

  function PayloadOffset(sl: Slicing): nat {
    if sl.AtPrefix? then 0 else 4
  }

  /** `Context::default`: an empty pool that makes empty buffers, no arguments, at the start. */
  function NewContext(): (r: Context)
    ensures |r.pool.items| == 0 && r.pool.init == [] && r.bufArgs == Some([]) && r.idx == 0 && r.stage == Init
  {
    Context(P.Pool([], []), Some([]), 0, Init)
  }

  /**
   * `stage_init`: reads the buffer's first byte. With the top bit set it must name
   * a key type in its upper seven bits (it never does: those are at least 64),
   * and it must be a command id. A simple command finishes at once.
   */
  function StageInit(c: Context, buf: Bytes): (r: Result<(Context, Conclusion), ParseError>)
    ensures |buf| == 0 ==> r == Ok((c, Incomplete))
    ensures |buf| > 0 && buf[0] >= 128 ==> r == Err(KeyTypeInvalid)
    ensures |buf| > 0 && buf[0] < 128 && TryFromU8(buf[0]).None? ==> r == Err(CommandIdInvalid)
    ensures |buf| > 0 && buf[0] < 128 && TryFromU8(buf[0]) == Some(Stats) ==>
      r == Ok((c.(stage := Init), Finished(Request(None, None, Stats))))
  {
    if |buf| == 0 then Ok((c, Incomplete))
    else
      var byte := buf[0];
      if byte >= 128 then
        match KeyTypeTryFromU8(byte / 2)
        case None => Err(KeyTypeInvalid)
        case Some(k) => CommandByte(c, byte, Some(k))
      else CommandByte(c, byte, None)
  }

  /** The rest of `stage_init`, once the key type is known: the byte must be a command id. */
  function CommandByte(c: Context, byte: uint8, keyType: Option<KeyType>): (r: Result<(Context, Conclusion), ParseError>)
    ensures TryFromU8(byte).None? ==> r == Err(CommandIdInvalid)
    ensures TryFromU8(byte) == Some(Stats) ==> r == Ok((c.(stage := Init), Finished(Request(None, None, Stats))))
    ensures TryFromU8(byte).Some? && !IsSimple(TryFromU8(byte).value) ==>
      r == Ok((c.(stage := KindStage(TryFromU8(byte).value, keyType), idx := c.idx + 1), Next))
  {
    match TryFromU8(byte)
    case None => Err(CommandIdInvalid)
    case Some(cmd) =>
      if IsSimple(cmd) then Ok((c.(stage := Init), Finished(Request(None, None, cmd))))
      else Ok((c.(stage := KindStage(cmd, keyType), idx := c.idx + 1), Next))
  }

  /** `stage_kind`: the byte at the read position is the argument count. */
  function StageKind(c: Context, buf: Bytes, cmd: CommandType, keyType: Option<KeyType>): (r: (Context, Conclusion))
    ensures c.idx >= |buf| ==> r == (c, Incomplete)
    ensures c.idx < |buf| ==> r == (c.(stage := ArgumentParsing(buf[c.idx], cmd, keyType), idx := c.idx + 1), Next)
  {
    if c.idx < |buf| then (c.(stage := ArgumentParsing(buf[c.idx], cmd, keyType), idx := c.idx + 1), Next)
    else (c, Incomplete)
  }

  /** `push_arg`: appends, starting a new list when the arguments were handed out. */
  function PushArg(bufArgs: Option<seq<Bytes>>, arg: Bytes): (r: seq<Bytes>)
    ensures r == (if bufArgs.Some? then bufArgs.value else []) + [arg]
  {
    match bufArgs
    case Some(args) => args + [arg]
    case None => [arg]
  }

  /**
   * `stage_argument_parsing`: a 4-byte big-endian length at the read position,
   * then the argument's bytes, taken into a buffer pulled from the pool. Once as
   * many arguments were collected as the count says, the request is finished and
   * takes the arguments; the stage is left as it is.
   */
  function StageArguments(c: Context, buf: Bytes, count: uint8, cmd: CommandType, keyType: Option<KeyType>, sl: Slicing): (r: (Context, Conclusion))
    ensures c.idx + 4 > |buf| ==> r == (c, Incomplete)
    ensures r.1.Incomplete? ==> r.0 == c
    ensures r.1.Next? || r.1.Finished? ==>
      c.idx + 4 <= |buf| && c.idx + PayloadOffset(sl) + FromBE(buf[c.idx..c.idx + 4]) <= |buf| &&
      r.0.idx == c.idx + 4 + FromBE(buf[c.idx..c.idx + 4]) && r.0.stage == c.stage &&
      var args := PushArg(c.bufArgs, P.Pull(c.pool).1 + buf[c.idx + PayloadOffset(sl)..c.idx + PayloadOffset(sl) + FromBE(buf[c.idx..c.idx + 4])]);
      r.0.pool == P.Pull(c.pool).0 &&
      (r.1.Finished? <==> |args| == count) &&
      (r.1.Finished? ==> r.1.req == Request(Some(args), keyType, cmd) && r.0.bufArgs.None?) &&
      (r.1.Next? ==> r.0.bufArgs == Some(args))
  {
    if c.idx + 4 > |buf| then (c, Incomplete)
    else
      var argLen := U32FromBE(buf[c.idx..c.idx + 4]);
      var from := c.idx + PayloadOffset(sl);
      if from + argLen > |buf| then (c, Incomplete)
      else
        var (pool, pooled) := P.Pull(c.pool);
        var args := PushArg(c.bufArgs, pooled + buf[from..from + argLen]);
        var next := c.(pool := pool, idx := c.idx + 4 + argLen);
        if |args| == count then (next.(bufArgs := None), Finished(Request(Some(args), keyType, cmd)))
        else (next.(bufArgs := Some(args)), Next)
  }

  function Rank(s: Stage): nat {
    match s
    case Init => 2
    case KindStage(_, _) => 1
    case ArgumentParsing(_, _, _) => 0
  }

  /** How far the parser can still move over `buf`: every step that goes on lowers it. */
  function Measure(c: Context, buf: Bytes): nat {
    if c.idx > |buf| then 0 else (|buf| - c.idx + 1) * 3 + Rank(c.stage)
  }

  /** One stage of the loop in `feed`. */
  function Step(c: Context, buf: Bytes, sl: Slicing): (r: Result<(Context, Conclusion), ParseError>)
    requires c.idx <= |buf|
    ensures r.Ok? && r.value.1.Next? ==> Measure(r.value.0, buf) < Measure(c, buf)
    ensures r.Ok? && r.value.1.Incomplete? ==> r.value.0 == c
  {
    match c.stage
    case Init => StageInit(c, buf)
    case KindStage(cmd, keyType) => Ok(StageKind(c, buf, cmd, keyType))
    case ArgumentParsing(count, cmd, keyType) => Ok(StageArguments(c, buf, count, cmd, keyType, sl))
  }

  /**
   * `Context::feed`: steps until a request is finished, the buffer runs out, or
   * the first byte is refused. A refusal leaves the context as it was; running
   * out leaves it where it stopped, so that a longer buffer can resume.
   */
  function Feed(c: Context, buf: Bytes, sl: Slicing): (r: (Context, Result<Option<Request>, ParseError>))
    ensures r.1.Err? ==> r.0 == c
    decreases Measure(c, buf)
  {
    if c.idx > |buf| then (c, Ok(None))
    else
      match Step(c, buf, sl)
      case Err(e) => (c, Err(e))
      case Ok((next, Finished(req))) => (next, Ok(Some(req)))
      case Ok((next, Incomplete)) => (next, Ok(None))
      case Ok((next, Next)) =>
        var r := Feed(next, buf, sl);
        if r.1.Err? then (c, r.1) else r
  }

  /**
   * `Context::reset`: back to the start; every buffer of `args` is emptied and
   * returned to the pool, and the emptied list becomes the collected arguments.
   */
  function Reset(c: Context, args: seq<Bytes>): (r: Context)
    ensures r.stage == Init && r.idx == 0 && r.bufArgs == Some([])
    ensures |r.pool.items| == |c.pool.items| + |args|
    ensures r.pool.init == c.pool.init && r.pool.items[..|c.pool.items|] == c.pool.items
    ensures forall i :: |c.pool.items| <= i < |r.pool.items| ==> r.pool.items[i] == []
  {
    Context(c.pool.(items := c.pool.items + seq(|args|, _ => [])), Some([]), 0, Init)
  }

  /** Every buffer the pool hands out is empty: the ones it holds and the ones it makes. */
  predicate Cleared(p: P.Pool<Bytes>) {
    p.init == [] && forall i :: 0 <= i < |p.items| ==> p.items[i] == []
  }

  /** A new context's pool is cleared, pulling keeps it cleared, and a reset keeps it cleared. */
  lemma ClearedKept(c: Context, args: seq<Bytes>)
    requires Cleared(c.pool)
    ensures Cleared(NewContext().pool)
    ensures Cleared(P.Pull(c.pool).0) && P.Pull(c.pool).1 == []
    ensures Cleared(Reset(c, args).pool)
  {
  }
}
