/**
 * A request as handlers see it: the received bytes, the command, the key type asked
 * for, and where each argument ends; the argument accessors; the conversions of
 * argument bytes into typed values; and the byte layout of a request on the wire.
 */
module Requests {
  import opened Bytes
  import opened Wrappers
  import opened Utf8
  import opened Values
  import opened CommandIds
  import opened Enumerations
  import opened Layout
  import opened Responses

  /**
   * `Request`: `positions[i]` is the index in `buf` of the last byte of argument `i`
   * (one before its first byte when the argument is empty).
   */
  datatype Request = Request(buf: Bytes, cmd: CommandId, keyType: Option<KeyType>, positions: seq<nat>)

  /**
   * Where `arg` takes the first argument to begin: after the command byte, the key
   * type byte when there is one, the count byte and the 4-byte length.
   */
  function FirstArgStart(keyType: Option<KeyType>): nat {
    if keyType.Some? then 7 else 6
  }

  /** Where `arg` takes argument `i` to begin: 4 length bytes after the previous argument's last byte. */
  function ArgStart(req: Request, i: nat): nat
    requires i < |req.positions|
  {
    if i == 0 then FirstArgStart(req.keyType) else req.positions[i - 1] + 5
  }

  /**
   * `Request::arg`: the bytes from the argument's start through its recorded last
   * byte, when there is such an argument and that range lies in the buffer.
   */
  function Arg(req: Request, i: nat): (r: Option<Bytes>)
    ensures r.Some? ==> i < |req.positions|
  {
    if i < |req.positions| && ArgStart(req, i) <= req.positions[i] + 1 <= |req.buf| then
      Some(req.buf[ArgStart(req, i)..req.positions[i] + 1])
    else None
  }

  function ArgCount(req: Request): nat {
    |req.positions|
  }

  /** `Request::key`: the first argument, for commands whose key notation is not None. */
  function Key(req: Request): (r: Option<Bytes>)
    ensures req.cmd in {Echo, Stats} ==> r.None?
    ensures req.cmd !in {Echo, Stats} ==> r == Arg(req, 0)
  {
    if KeyNotationOf(req.cmd) == KeysNone then None else Arg(req, 0)
  }

  /** The bounds of a range of argument indices. */
  datatype Bound = Included(n: nat) | Excluded(n: nat) | Unbounded

  function StartIndex(b: Bound): nat {
    match b
    case Excluded(n) => n + 1
    case Included(n) => n
    case Unbounded => 0
  }

  function EndIndex(b: Bound, count: nat): nat {
    match b
    case Excluded(n) => n
    case Included(n) => n + 1
    case Unbounded => count
  }

  /**
   * What an `Arguments` iterator yields from index `idx` on: it stops at `to`, or at
   * the first index for which `arg` has nothing.
   */
  function Collect(req: Request, idx: nat, to: nat): (r: seq<Bytes>)
    ensures forall k :: 0 <= k < |r| ==> Arg(req, idx + k) == Some(r[k])
    ensures idx + |r| == to || Arg(req, idx + |r|).None?
    ensures idx <= to ==> idx + |r| <= to
    decreases |req.positions| - idx
  {
    if idx == to || Arg(req, idx).None? then []
    else [Arg(req, idx).value] + Collect(req, idx + 1, to)
  }

  /** `Request::args`: nothing for a request without arguments, else the arguments between the bounds. */
  function Args(req: Request, start: Bound, end: Bound): (r: Option<seq<Bytes>>)
    ensures r.None? <==> ArgCount(req) == 0
  {
    if ArgCount(req) == 0 then None
    else Some(Collect(req, StartIndex(start), EndIndex(end, ArgCount(req))))
  }

  // The conversions of one argument (`Argument::convert`).

  /** `bool`: whether the first byte is non-zero; nothing for an empty argument. */
  function ToBool(bytes: Bytes): (r: Option<bool>)
    ensures r.Some? <==> |bytes| > 0
  {
    if |bytes| == 0 then None else Some(bytes[0] > 0)
  }

  /** `i64`: the first eight bytes, big-endian; nothing when there are fewer. */
  function ToInteger(bytes: Bytes): (r: Option<int64>)
    ensures r.Some? <==> |bytes| >= 8
  {
    if |bytes| < 8 then None else Some(I64FromBE(bytes[..8]))
  }

  /** `f64`, kept as its bit pattern: the first eight bytes, big-endian; nothing when there are fewer. */
  function ToFloatBits(bytes: Bytes): (r: Option<uint64>)
    ensures r.Some? <==> |bytes| >= 8
  {
    if |bytes| < 8 then None else Some(U64FromBE(bytes[..8]))
  }

  /** `&str`: the bytes themselves when they are UTF-8. */
  function ToStr(bytes: Bytes): (r: Option<Utf8String>)
    ensures r.Some? <==> ValidUtf8(bytes)
    ensures r.Some? ==> r.value == bytes
  {
    if ValidUtf8(bytes) then
      var text: Utf8String := bytes;
      Some(text)
    else None
  }

  /** The boolean written as one byte, 1 or 0, reads back as itself. */
  lemma ToBoolOfByte(b: bool, extra: Bytes)
    ensures ToBool([if b then 1 else 0] + extra) == Some(b)
  {
  }

  /** Eight big-endian bytes read back as the integer; bytes after them are ignored. */
  lemma ToIntegerRoundTrip(x: int64, extra: Bytes)
    ensures ToInteger(I64BE(x) + extra) == Some(x)
  {
    assert (I64BE(x) + extra)[..8] == I64BE(x);
    I64RoundTrip(x);
  }

  lemma ToFloatBitsRoundTrip(bits: uint64, extra: Bytes)
    ensures ToFloatBits(BE(bits, 8) + extra) == Some(bits)
  {
    assert (BE(bits, 8) + extra)[..8] == BE(bits, 8);
    FromBEOfBE(bits, 8);
  }

  /** An argument shorter than eight bytes converts to no integer. */
  lemma ToIntegerShort(bytes: Bytes)
    requires |bytes| < 8
    ensures ToInteger(bytes) == None && ToFloatBits(bytes) == None
  {
  }

  // The conversions of several arguments (`MultiArgument::convert`).

  /** Consecutive arguments taken two at a time; a trailing odd argument is dropped. */
  function Pairs(args: seq<Bytes>): (r: seq<(Bytes, Bytes)>)
    ensures |r| == |args| / 2
    ensures forall i :: 0 <= i < |r| ==> r[i] == (args[2 * i], args[2 * i + 1])
  {
    if |args| < 2 then [] else [(args[0], args[1])] + Pairs(args[2..])
  }

  /** The map the pairs give when inserted one after another: a later key overwrites an earlier one. */
  function MapOfPairs(ps: seq<(Bytes, Bytes)>): map<Bytes, Bytes> {
    if |ps| == 0 then map[] else MapOfPairs(ps[..|ps| - 1])[ps[|ps| - 1].0 := ps[|ps| - 1].1]
  }

  /** The `DashMap` conversion: pairs of consecutive arguments, inserted in order. */
  function ToMap(args: seq<Bytes>): map<Bytes, Bytes> {
    MapOfPairs(Pairs(args))
  }

  /** `ps[i]` is the last pair with its key. */
  predicate LastWithKey(ps: seq<(Bytes, Bytes)>, i: nat)
    requires i < |ps|
  {
    forall j :: i < j < |ps| ==> ps[j].0 != ps[i].0
  }

  /**
   * The map holds exactly the keys of the pairs, and each key maps to the value of
   * the last pair with that key.
   */
  lemma {:induction false} MapOfPairsContents(ps: seq<(Bytes, Bytes)>)
    ensures forall k :: k in MapOfPairs(ps) <==> exists i :: 0 <= i < |ps| && ps[i].0 == k
    ensures forall i :: 0 <= i < |ps| && LastWithKey(ps, i) ==> MapOfPairs(ps)[ps[i].0] == ps[i].1
    decreases |ps|
  {
    if |ps| > 0 {
      var init := ps[..|ps| - 1];
      var last := ps[|ps| - 1];
      MapOfPairsContents(init);
      var m := MapOfPairs(ps);
      assert m == MapOfPairs(init)[last.0 := last.1];
      forall k ensures k in m <==> exists i :: 0 <= i < |ps| && ps[i].0 == k {
        if k in MapOfPairs(init) {
          var i :| 0 <= i < |init| && init[i].0 == k;
          assert ps[i] == init[i];
        }
        if exists i :: 0 <= i < |ps| && ps[i].0 == k {
          var i :| 0 <= i < |ps| && ps[i].0 == k;
          if i < |init| {
            assert init[i] == ps[i];
          }
        }
      }
      forall i | 0 <= i < |ps| && LastWithKey(ps, i) ensures m[ps[i].0] == ps[i].1 {
        if i < |init| {
          assert ps[i] == init[i];
          assert ps[|ps| - 1].0 != ps[i].0;
          assert LastWithKey(init, i) by {
            forall j | i < j < |init| ensures init[j].0 != init[i].0 {
              assert init[j] == ps[j];
            }
          }
        }
      }
    }
  }

  /** Adding a pair of arguments after an even number of them sets that key, whatever it held. */
  lemma ToMapAppendPair(args: seq<Bytes>, k: Bytes, v: Bytes)
    requires |args| % 2 == 0
    ensures ToMap(args + [k, v]) == ToMap(args)[k := v]
  {
    var ps := Pairs(args + [k, v]);
    assert ps[..|ps| - 1] == Pairs(args);
  }

  /** A trailing odd argument is ignored. */
  lemma ToMapDropsOdd(args: seq<Bytes>, x: Bytes)
    requires |args| % 2 == 0
    ensures ToMap(args + [x]) == ToMap(args)
  {
    assert Pairs(args + [x]) == Pairs(args);
  }

  /** The `DashSet` conversion: every argument, duplicates collapsed. */
  function ToSet(args: seq<Bytes>): (r: set<Bytes>)
    ensures forall a :: a in r <==> a in args
  {
    set i | 0 <= i < |args| :: args[i]
  }

  /** A set never has more elements than arguments, and exactly as many when they are distinct. */
  lemma {:induction false} ToSetSize(args: seq<Bytes>)
    ensures |ToSet(args)| <= |args|
    ensures Distinct(args) ==> |ToSet(args)| == |args|
    decreases |args|
  {
    if |args| > 0 {
      var init := args[..|args| - 1];
      ToSetSize(init);
      assert ToSet(args) == ToSet(init) + {args[|args| - 1]};
      if Distinct(args) {
        assert Distinct(init) by {
          forall i, j | 0 <= i < j < |init| ensures init[i] != init[j] {
            assert init[i] == args[i] && init[j] == args[j];
          }
        }
        assert args[|args| - 1] !in ToSet(init) by {
          forall i | 0 <= i < |init| ensures init[i] != args[|args| - 1] {
            assert init[i] == args[i];
          }
        }
      }
    }
  }

  /** `typed_args` for a map: the arguments after the key, paired. */
  function TypedArgsMap(req: Request): (r: Option<map<Bytes, Bytes>>)
    ensures r.None? <==> ArgCount(req) == 0
  {
    match Args(req, Included(1), Unbounded)
    case None => None
    case Some(args) => Some(ToMap(args))
  }

  /** `typed_args` for a set: the arguments after the key, as a set. */
  function TypedArgsSet(req: Request): (r: Option<set<Bytes>>)
    ensures r.None? <==> ArgCount(req) == 0
  {
    match Args(req, Included(1), Unbounded)
    case None => None
    case Some(args) => Some(ToSet(args))
  }

  // The wire layout of a request.

  /** The arguments fit their count byte and their 4-byte lengths. */
  predicate ArgsFit(args: seq<Bytes>) {
    |args| < 256 && forall i :: 0 <= i < |args| ==> FitsU32(args[i])
  }

  /** The bytes before the first argument: the command byte, the key type when there is one, the count. */
  function Header(cmd: CommandId, keyType: Option<KeyType>, count: uint8): (r: Bytes)
    ensures |r| == HeaderLength(keyType) && r[|r| - 1] == count
    ensures r[0] == if keyType.Some? then 128 + Code(cmd) else Code(cmd)
  {
    match keyType
    case None => [Code(cmd), count]
    case Some(k) => [128 + Code(cmd), KeyTypeCode(k), count]
  }

  function HeaderLength(keyType: Option<KeyType>): nat {
    if keyType.Some? then 3 else 2
  }

  /**
   * A request's bytes: a simple command is its one byte; any other command is the
   * header (the command byte with the top bit set when a key type byte follows, the
   * key type, the argument count), then each argument as a 4-byte big-endian length
   * and its bytes.
   */
  function Encode(cmd: CommandId, keyType: Option<KeyType>, args: seq<Bytes>): (r: Bytes)
    requires ArgsFit(args)
  {
    if IsSimple(cmd) then [Code(cmd)] else Header(cmd, keyType, |args|) + ListItems(args)
  }

  /** The last-byte positions of arguments framed one after another from `start`. */
  function PositionsFrom(start: nat, args: seq<Bytes>): (r: seq<nat>)
    ensures |r| == |args|
  {
    if |args| == 0 then []
    else
      var n := |args| - 1;
      PositionsFrom(start, args[..n]) + [start + |ListItems(args[..n])| + 3 + |args[n]|]
  }

  /** The request that describes `buf` when it starts with the encoding of `cmd`, `keyType` and `args`. */
  function Parsed(buf: Bytes, cmd: CommandId, keyType: Option<KeyType>, args: seq<Bytes>): Request {
    Request(buf, cmd, keyType, PositionsFrom(HeaderLength(keyType), args))
  }

  /** The `i`-th position lies after the first `i` framed arguments, 4 length bytes and the argument. */
  lemma {:induction false} PositionAt(start: nat, args: seq<Bytes>, i: nat)
    requires i < |args|
    ensures PositionsFrom(start, args)[i] == start + |ListItems(args[..i])| + 3 + |args[i]|
    decreases |args|
  {
    var n := |args| - 1;
    if i < n {
      PositionAt(start, args[..n], i);
      assert args[..n][..i] == args[..i];
    }
  }

  /** Where argument `i` of an encoded request begins. */
  lemma ArgStartParsed(buf: Bytes, cmd: CommandId, keyType: Option<KeyType>, args: seq<Bytes>, i: nat)
    requires i < |args|
    ensures ArgStart(Parsed(buf, cmd, keyType, args), i) == HeaderLength(keyType) + |ListItems(args[..i])| + 4
  {
    var h := HeaderLength(keyType);
    if i > 0 {
      PositionAt(h, args, i - 1);
      ListItemsGrow(args, i - 1);
      assert args[..i - 1 + 1] == args[..i];
    } else {
      assert args[..0] == [];
    }
  }

  /** The framed arguments of an encoded request follow its header. */
  lemma EncodedHolds(cmd: CommandId, keyType: Option<KeyType>, args: seq<Bytes>, rest: Bytes)
    requires !IsSimple(cmd) && ArgsFit(args)
    ensures HoldsAt(Encode(cmd, keyType, args) + rest, HeaderLength(keyType), ListItems(args))
  {
    var header := Header(cmd, keyType, |args|);
    AppendAssoc(header, ListItems(args), rest);
    HoldsAfter(Encode(cmd, keyType, args) + rest, header, ListItems(args), rest);
  }

  /** An argument whose recorded bounds enclose bytes held in the buffer reads back as those bytes. */
  lemma ArgHeld(req: Request, i: nat, a: Bytes)
    requires i < |req.positions| && ArgStart(req, i) + |a| == req.positions[i] + 1
    requires HoldsAt(req.buf, ArgStart(req, i), a)
    ensures Arg(req, i) == Some(a)
  {
    HoldsAtMeans(req.buf, ArgStart(req, i), a);
  }

  /** Argument `i` of a buffer holding framed arguments after a header reads back unchanged. */
  lemma ArgOfFramed(buf: Bytes, cmd: CommandId, keyType: Option<KeyType>, args: seq<Bytes>, i: nat)
    requires i < |args| && HoldsAt(buf, HeaderLength(keyType), ListItems(args))
    ensures Arg(Parsed(buf, cmd, keyType, args), i) == Some(args[i])
  {
    var h := HeaderLength(keyType);
    var at := h + |ListItems(args[..i])|;
    ArgStartParsed(buf, cmd, keyType, args, i);
    PositionAt(h, args, i);
    ListPosition(buf, h, args, i);
    HoldsAtSlice(buf, at, ItemBytes(args[i]), 4, 4 + |args[i]|);
    assert ItemBytes(args[i])[4..4 + |args[i]|] == args[i];
    ArgHeld(Parsed(buf, cmd, keyType, args), i, args[i]);
  }

  /** Every argument of an encoded request reads back unchanged, whatever follows the request. */
  lemma ArgOfEncoded(cmd: CommandId, keyType: Option<KeyType>, args: seq<Bytes>, rest: Bytes, i: nat)
    requires !IsSimple(cmd) && ArgsFit(args) && i < |args|
    ensures Arg(Parsed(Encode(cmd, keyType, args) + rest, cmd, keyType, args), i) == Some(args[i])
  {
    EncodedHolds(cmd, keyType, args, rest);
    ArgOfFramed(Encode(cmd, keyType, args) + rest, cmd, keyType, args, i);
  }

  /** An encoded request that takes a key has its first argument as key. */
  lemma KeyOfEncoded(cmd: CommandId, keyType: Option<KeyType>, args: seq<Bytes>, rest: Bytes)
    requires !IsSimple(cmd) && ArgsFit(args) && |args| > 0 && cmd != Echo
    ensures Key(Parsed(Encode(cmd, keyType, args) + rest, cmd, keyType, args)) == Some(args[0])
  {
    ArgOfEncoded(cmd, keyType, args, rest, 0);
  }

  /** Iterating arguments that all read back yields them from `lo` on. */
  lemma {:induction false} CollectAll(req: Request, args: seq<Bytes>, lo: nat)
    requires lo <= |args|
    requires forall i :: 0 <= i < |args| ==> Arg(req, i) == Some(args[i])
    ensures Collect(req, lo, |args|) == args[lo..]
    decreases |args| - lo
  {
    if lo < |args| {
      CollectAll(req, args, lo + 1);
      assert args[lo..] == [args[lo]] + args[lo + 1..];
    }
  }

  /** `args(..)` and `args(1..)` of an encoded request with arguments. */
  lemma ArgsOfEncoded(cmd: CommandId, keyType: Option<KeyType>, args: seq<Bytes>, rest: Bytes)
    requires !IsSimple(cmd) && ArgsFit(args) && |args| > 0
    ensures Args(Parsed(Encode(cmd, keyType, args) + rest, cmd, keyType, args), Unbounded, Unbounded) == Some(args)
    ensures Args(Parsed(Encode(cmd, keyType, args) + rest, cmd, keyType, args), Included(1), Unbounded) == Some(args[1..])
  {
    var buf := Encode(cmd, keyType, args) + rest;
    var req := Parsed(buf, cmd, keyType, args);
    EncodedHolds(cmd, keyType, args, rest);
    forall i | 0 <= i < |args|
      ensures Arg(req, i) == Some(args[i])
    {
      ArgOfFramed(buf, cmd, keyType, args, i);
    }
    CollectAll(req, args, 0);
    CollectAll(req, args, 1);
  }

  /** The layouts the request tests fix. */
  lemma EncodeExamples()
    ensures Encode(Stats, None, []) == [0x65]
    ensures Encode(Increment, Some(FloatType), []) == [0x80, 2, 0]
  {
  }
}
