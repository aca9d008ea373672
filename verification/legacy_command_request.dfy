/**
 * The earlier crate's `command::Request`, the view of a request its command
 * handlers get: the arguments, and nothing about a key type.
 */
module LegacyCommandRequest {
  import opened Bytes
  import opened Wrappers

  /** `Request`: the arguments a command is handed, if any. */
  datatype Request = Request(args: Option<seq<Bytes>>)

  /** `Request::arg`: the argument at that index, if there are arguments and enough of them. */
  function Arg(r: Request, i: nat): (a: Option<Bytes>)
    ensures a.Some? <==> r.args.Some? && i < |r.args.value|
    ensures a.Some? ==> a.value == r.args.value[i]
  {
    match r.args
    case None => None
    case Some(args) => if i < |args| then Some(args[i]) else None
  }

  /** `Request::key`: the first argument; every command's key is its first argument here. */
  function Key(r: Request): (k: Option<Bytes>)
    ensures k == Arg(r, 0)
  {
    if r.args.Some? && |r.args.value| > 0 then Some(r.args.value[0]) else None
  }

  /** The fold in `flatten_args`: each argument extends the accumulator in turn. */
  function FoldExtend(acc: Bytes, args: seq<Bytes>): (r: Bytes)
    ensures r == acc + Concat(args)
    decreases |args|
  {
    if |args| == 0 then acc
    else
      var r := FoldExtend(acc + args[0], args[1..]);
      assert acc + args[0] + Concat(args[1..]) == acc + (args[0] + Concat(args[1..]));
      r
  }

  /** `Request::flatten_args`: every argument, the key included, one after the other. */
  function FlattenArgs(r: Request): (f: Option<Bytes>)
    ensures f.Some? <==> r.args.Some?
    ensures f.Some? ==> f.value == Concat(r.args.value)
  {
    match r.args
    case None => None
    case Some(args) => Some(FoldExtend([], args))
  }

  /**
   * The flattened arguments hold each argument in order: the `i`-th starts
   * after the ones before it and is followed by the ones after it.
   */
  lemma FlattenedHoldsArg(r: Request, i: nat)
    requires Arg(r, i).Some?
    ensures var args := r.args.value;
      FlattenArgs(r).value == Concat(args[..i]) + Arg(r, i).value + Concat(args[i + 1..])
  {
    var args := r.args.value;
    assert args == args[..i] + args[i..];
    ConcatAppend(args[..i], args[i..]);
    assert args[i..][1..] == args[i + 1..];
  }

  /** The key leads the flattened arguments. */
  lemma KeyLeadsFlattened(r: Request)
    requires Key(r).Some?
    ensures |Key(r).value| <= |FlattenArgs(r).value|
    ensures FlattenArgs(r).value[..|Key(r).value|] == Key(r).value
  {
    FlattenedHoldsArg(r, 0);
    var args := r.args.value;
    assert args[..0] == [];
  }
}
