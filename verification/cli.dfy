/**
 * The command line tool's input handling: a line is split on single spaces,
 * the first word names the command and the other words are its arguments,
 * as their UTF-8 bytes. The library's `parse` looks names up in the engine's
 * command table; the interactive tool trims the line first and looks names up
 * in the earlier crate's table. Also the names printed for key types.
 */
module Cli {
  import opened Bytes
  import opened Wrappers
  import opened Utf8
  import opened Values
  import C = CommandIds
  import L = LegacyCommandIds
  import LR = LegacyRequests

  predicate NoSpace(t: string) {
    forall i :: 0 <= i < |t| ==> t[i] != ' '
  }

  /** The words joined back with one space between each two. */
  function Join(words: seq<string>): string
    requires |words| > 0
    decreases |words|
  {
    if |words| == 1 then words[0] else words[0] + " " + Join(words[1..])
  }

  /** A first word made longer by a prefix makes the joined line longer by it. */
  lemma {:induction false} JoinHead(x: string, words: seq<string>)
    requires |words| > 0
    ensures Join([x + words[0]] + words[1..]) == x + Join(words)
  {
    var ws := [x + words[0]] + words[1..];
    assert ws[1..] == words[1..];
  }

  /**
   * `str::split(' ')`: the pieces between the spaces, in order. There is
   * always at least one; runs of spaces and spaces at either end give empty
   * pieces. The pieces joined back with spaces are the line.
   */
  function Split(s: string): (r: seq<string>)
    ensures |r| > 0
    ensures forall i :: 0 <= i < |r| ==> NoSpace(r[i])
    ensures Join(r) == s
    decreases |s|
  {
    if |s| == 0 then [""]
    else
      var rest := Split(s[1..]);
      if s[0] == ' ' then
        assert ([""] + rest)[1..] == rest;
        [""] + rest
      else
        JoinHead([s[0]], rest);
        assert [s[0]] + s[1..] == s;
        [[s[0]] + rest[0]] + rest[1..]
  }

  /** A word without spaces in front of the line joins the line's first piece. */
  lemma {:induction false} SplitWord(t: string, rest: string)
    requires NoSpace(t)
    ensures Split(t + rest) == [t + Split(rest)[0]] + Split(rest)[1..]
    decreases |t|
  {
    var p := Split(rest);
    if |t| > 0 {
      assert (t + rest)[0] == t[0] && (t + rest)[1..] == t[1..] + rest;
      SplitWord(t[1..], rest);
      assert [t[0]] + (t[1..] + p[0]) == t + p[0];
    } else {
      assert t + rest == rest && t + p[0] == p[0];
      assert [p[0]] + p[1..] == p;
    }
  }

  /** Splitting the joined words gives the words back, when none holds a space. */
  lemma {:induction false} SplitJoin(words: seq<string>)
    requires |words| > 0 && forall i :: 0 <= i < |words| ==> NoSpace(words[i])
    ensures Split(Join(words)) == words
    decreases |words|
  {
    if |words| == 1 {
      SplitWord(words[0], "");
      assert words[0] + "" == words[0];
    } else {
      var tail := Join(words[1..]);
      SplitJoin(words[1..]);
      assert (" " + tail)[1..] == tail;
      assert words[0] + " " + tail == words[0] + (" " + tail);
      SplitWord(words[0], " " + tail);
      assert words[0] + "" == words[0];
      assert words == [words[0]] + words[1..];
    }
  }

  /** The pieces of a line are the only words without spaces that join to it. */
  lemma SplitUnique(s: string, words: seq<string>)
    requires |words| > 0 && forall i :: 0 <= i < |words| ==> NoSpace(words[i])
    ensures Join(words) == s <==> words == Split(s)
  {
    SplitJoin(words);
  }

  /** Every word's UTF-8 bytes, in order. */
  function EncodeAll(words: seq<string>): (r: seq<Bytes>)
    ensures |r| == |words|
    ensures forall i :: 0 <= i < |words| ==> r[i] == Encode(words[i])
    decreases |words|
  {
    if |words| == 0 then [] else [Encode(words[0])] + EncodeAll(words[1..])
  }

  /** A line taken apart: the command's name and the words after it, None when there are none. */
  datatype Words = Words(name: string, args: Option<seq<string>>)

  /**
   * The part `parse` and `process_command` share: split the line, refuse an
   * empty first piece, and keep the pieces after it, if there are any.
   */
  function Tokenize(line: string): (r: Option<Words>)
    ensures r.None? <==> |line| == 0 || line[0] == ' '
    ensures r.Some? ==> |r.value.name| > 0 && NoSpace(r.value.name)
    ensures r.Some? && r.value.args.None? ==> line == r.value.name
    ensures r.Some? && r.value.args.Some? ==>
      |r.value.args.value| > 0 && line == r.value.name + " " + Join(r.value.args.value)
  {
    var pieces := Split(line);
    if pieces[0] == "" then None
    else if |pieces| == 1 then Some(Words(pieces[0], None))
    else Some(Words(pieces[0], Some(pieces[1..])))
  }

  /** A name followed by words, none holding a space, is taken apart into that name and those words. */
  lemma TokenizeJoined(name: string, args: seq<string>)
    requires |name| > 0 && NoSpace(name) && forall i :: 0 <= i < |args| ==> NoSpace(args[i])
    ensures |args| == 0 ==> Tokenize(name) == Some(Words(name, None))
    ensures |args| > 0 ==> Tokenize(name + " " + Join(args)) == Some(Words(name, Some(args)))
  {
    var words := [name] + args;
    assert words[0] == name && words[1..] == args;
    assert forall i :: 0 <= i < |words| ==> NoSpace(words[i]);
    SplitJoin(words);
    if |args| > 0 {
      assert Join(words) == name + " " + Join(args);
    } else {
      assert Join(words) == name;
    }
  }

  // `parse`, with the engine's command table.

  datatype ParseError = InvalidCommandType(providedName: string) | NoCommandProvided

  /** What `parse` hands to the request constructor: the command and the arguments. */
  datatype Command = Command(cmd: C.CommandId, args: Option<seq<Bytes>>)

  function Parse(input: string): (r: Result<Command, ParseError>)
    ensures r == Err(NoCommandProvided) <==> |input| == 0 || input[0] == ' '
    ensures r.Err? && r.error.InvalidCommandType? ==>
      C.FromStr(r.error.providedName) == None && |r.error.providedName| > 0 && NoSpace(r.error.providedName) &&
      |r.error.providedName| <= |input| && input[..|r.error.providedName|] == r.error.providedName
    ensures r.Ok? ==>
      var name := C.Name(r.value.cmd);
      |name| <= |input| && input[..|name|] == name && (r.value.args.None? <==> input == name)
  {
    match Tokenize(input)
    case None => Err(NoCommandProvided)
    case Some(Words(name, args)) =>
      match C.FromStr(name)
      case None => Err(InvalidCommandType(name))
      case Some(cmd) => Ok(Command(cmd, if args.None? then None else Some(EncodeAll(args.value))))
  }

  /**
   * A command's name, alone or followed by words without spaces, parses to
   * that command with those words' bytes as its arguments.
   */
  lemma ParseRoundTrip(c: C.CommandId, args: seq<string>)
    requires forall i :: 0 <= i < |args| ==> NoSpace(args[i])
    ensures |args| == 0 ==> Parse(C.Name(c)) == Ok(Command(c, None))
    ensures |args| > 0 ==> Parse(C.Name(c) + " " + Join(args)) == Ok(Command(c, Some(EncodeAll(args))))
  {
    C.FromStrName(c);
    NameIsWord(c);
    TokenizeJoined(C.Name(c), args);
  }

  /** The engine's command names hold no space. */
  lemma NameIsWord(c: C.CommandId)
    ensures |C.Name(c)| > 0 && NoSpace(C.Name(c))
  {
    match c
    case _ =>
  }

  /** A first word that names no command is refused, carrying the word. */
  lemma ParseUnknown(name: string, args: seq<string>)
    requires |name| > 0 && NoSpace(name) && C.FromStr(name) == None
    requires forall i :: 0 <= i < |args| ==> NoSpace(args[i])
    ensures |args| == 0 ==> Parse(name) == Err(InvalidCommandType(name))
    ensures |args| > 0 ==> Parse(name + " " + Join(args)) == Err(InvalidCommandType(name))
  {
    TokenizeJoined(name, args);
  }

  /** Two spaces in a row give an empty argument between them; nothing is collapsed. */
  lemma ParseKeepsEmptyWords(a: string)
    requires NoSpace(a)
    ensures Parse("echo  " + a) == Ok(Command(C.Echo, Some([[], Encode(a)])))
  {
    var args := ["", a];
    assert args[1..] == [a];
    assert Join(args) == "" + " " + a;
    assert C.Name(C.Echo) + " " + Join(args) == "echo  " + a;
    ParseRoundTrip(C.Echo, args);
    assert EncodeAll(args) == [[], Encode(a)];
  }

  // `process_command`, with the earlier crate's command table.

  /** Unicode's White_Space property, which `str::trim` removes at both ends. */
  predicate IsWhiteSpace(c: char) {
    var v := c as int;
    (0x09 <= v <= 0x0D) || v == 0x20 || v == 0x85 || v == 0xA0 || v == 0x1680 ||
    (0x2000 <= v <= 0x200A) || v == 0x2028 || v == 0x2029 || v == 0x202F || v == 0x205F || v == 0x3000
  }

  /** How many white space characters the string starts with. */
  function LeadingSpace(s: string): (n: nat)
    ensures n <= |s|
    ensures forall i :: 0 <= i < n ==> IsWhiteSpace(s[i])
    ensures n < |s| ==> !IsWhiteSpace(s[n])
    decreases |s|
  {
    if |s| > 0 && IsWhiteSpace(s[0]) then 1 + LeadingSpace(s[1..]) else 0
  }

  /** How many white space characters the string ends with. */
  function TrailingSpace(s: string): (n: nat)
    ensures n <= |s|
    ensures forall i :: |s| - n <= i < |s| ==> IsWhiteSpace(s[i])
    ensures n < |s| ==> !IsWhiteSpace(s[|s| - n - 1])
    decreases |s|
  {
    if |s| > 0 && IsWhiteSpace(s[|s| - 1]) then 1 + TrailingSpace(s[..|s| - 1]) else 0
  }

  /**
   * `str::trim`: the string without the white space at its ends. What is
   * removed is white space, and what is left neither starts nor ends with it.
   */
  function Trim(s: string): (r: string)
    ensures |r| <= |s| && LeadingSpace(s) + |r| <= |s|
    ensures s == s[..LeadingSpace(s)] + r + s[LeadingSpace(s) + |r|..]
    ensures forall i :: LeadingSpace(s) + |r| <= i < |s| ==> IsWhiteSpace(s[i])
    ensures |r| > 0 ==> !IsWhiteSpace(r[0]) && !IsWhiteSpace(r[|r| - 1])
    ensures |r| == 0 <==> forall i :: 0 <= i < |s| ==> IsWhiteSpace(s[i])
  {
    var a := LeadingSpace(s);
    var rest := s[a..];
    var r := rest[..|rest| - TrailingSpace(rest)];
    assert forall i :: a + |r| <= i < |s| ==> s[i] == rest[i - a];
    assert s == s[..a] + r + s[a + |r|..];
    r
  }

  /** Trimming twice is trimming once. */
  lemma TrimIdempotent(s: string)
    ensures Trim(Trim(s)) == Trim(s)
  {
    var r := Trim(s);
    assert LeadingSpace(r) == 0;
    if |r| > 0 {
      assert TrailingSpace(r) == 0;
      assert r[0..][..|r|] == r;
    }
  }

  datatype InputError = InputInvalidCommandType(providedName: string) | InputNoCommandProvided | Retrieval

  /**
   * `process_command`: the line read is appended to `buffer` (`read` is None
   * when reading fails), the whole is trimmed, and the first word is looked up
   * in the earlier crate's table.
   */
  function ProcessCommand(buffer: string, read: Option<string>): (r: Result<LR.Request, InputError>)
    ensures read.None? <==> r == Err(Retrieval)
    ensures read.Some? ==>
      (r == Err(InputNoCommandProvided) <==> forall i :: 0 <= i < |buffer + read.value| ==> IsWhiteSpace((buffer + read.value)[i]))
    ensures r.Err? && r.error.InputInvalidCommandType? ==> L.FromStr(r.error.providedName) == None
    ensures r.Ok? ==> r.value.keyType.None?
  {
    match read
    case None => Err(Retrieval)
    case Some(line) =>
      var input := Trim(buffer + line);
      match Tokenize(input)
      case None => Err(InputNoCommandProvided)
      case Some(Words(name, args)) =>
        match L.FromStr(name)
        case None => Err(InputInvalidCommandType(name))
        case Some(cmd) => Ok(LR.New(cmd, if args.None? then None else Some(EncodeAll(args.value))))
  }

  /** Neither spaces nor any other white space. */
  predicate NoWhiteSpace(t: string) {
    forall i :: 0 <= i < |t| ==> !IsWhiteSpace(t[i])
  }

  /** The earlier crate's command names hold no white space. */
  lemma LegacyNameIsWord(c: L.CommandType)
    ensures |L.Name(c)| > 0 && NoWhiteSpace(L.Name(c))
  {
    match c
    case _ =>
  }

  /** A command's name and its words, joined with spaces, start and end with neither. */
  lemma LineEnds(name: string, args: seq<string>)
    requires |name| > 0 && NoWhiteSpace(name)
    requires forall i :: 0 <= i < |args| ==> |args[i]| > 0 && NoWhiteSpace(args[i])
    ensures var line := if |args| == 0 then name else name + " " + Join(args);
      |line| > 0 && !IsWhiteSpace(line[0]) && !IsWhiteSpace(line[|line| - 1])
  {
    if |args| > 0 {
      JoinLast(args);
      var j := Join(args);
      var last := Last(args);
      assert j[|j| - 1] == last[|last| - 1];
      assert (name + " " + j)[|name + " " + j| - 1] == j[|j| - 1];
    }
  }

  /**
   * White space around a command's name and its words does not matter: the
   * request is that command with those words' bytes as its arguments.
   */
  lemma ProcessCommandRoundTrip(c: L.CommandType, args: seq<string>, before: string, after: string)
    requires forall i :: 0 <= i < |args| ==> |args[i]| > 0 && NoWhiteSpace(args[i])
    requires forall i :: 0 <= i < |before| ==> IsWhiteSpace(before[i])
    requires forall i :: 0 <= i < |after| ==> IsWhiteSpace(after[i])
    ensures var line := if |args| == 0 then L.Name(c) else L.Name(c) + " " + Join(args);
      ProcessCommand("", Some(before + line + after)) ==
        Ok(LR.New(c, if |args| == 0 then None else Some(EncodeAll(args))))
  {
    var name := L.Name(c);
    var line := if |args| == 0 then name else name + " " + Join(args);
    L.FromStrName(c);
    LegacyNameIsWord(c);
    LineEnds(name, args);
    assert "" + (before + line + after) == before + line + after;
    TrimAround(before, line, after);
    assert NoSpace(name);
    assert forall i :: 0 <= i < |args| ==> NoSpace(args[i]);
    TokenizeJoined(name, args);
  }

  function Last(words: seq<string>): string
    requires |words| > 0
  {
    words[|words| - 1]
  }

  /** The joined words end as the last word does. */
  lemma {:induction false} JoinLast(words: seq<string>)
    requires |words| > 0
    ensures |Join(words)| >= |Last(words)|
    ensures Join(words)[|Join(words)| - |Last(words)|..] == Last(words)
    decreases |words|
  {
    if |words| > 1 {
      JoinLast(words[1..]);
      assert Last(words[1..]) == Last(words);
      var tail := Join(words[1..]);
      assert Join(words) == words[0] + " " + tail;
      assert Join(words)[|Join(words)| - |Last(words)|..] == tail[|tail| - |Last(words)|..];
    }
  }

  /** Trimming a line that neither starts nor ends with white space, framed by white space, gives the line. */
  lemma TrimAround(before: string, line: string, after: string)
    requires |line| > 0 && !IsWhiteSpace(line[0]) && !IsWhiteSpace(line[|line| - 1])
    requires forall i :: 0 <= i < |before| ==> IsWhiteSpace(before[i])
    requires forall i :: 0 <= i < |after| ==> IsWhiteSpace(after[i])
    ensures Trim(before + line + after) == line
  {
    var s := before + line + after;
    LeadingSpaceOf(before, line + after);
    assert s == before + (line + after);
    var r := Trim(s);
    assert s[|before|..] == line + after;
    assert r == s[|before|..|before| + |r|];
    var k := |before| + |line| - 1;
    assert s[k] == line[|line| - 1];
    assert |r| == |line|;
    assert r == line;
  }

  /** White space in front of a character that is not white space is exactly the leading white space. */
  lemma {:induction false} LeadingSpaceOf(before: string, rest: string)
    requires forall i :: 0 <= i < |before| ==> IsWhiteSpace(before[i])
    requires |rest| > 0 && !IsWhiteSpace(rest[0])
    ensures LeadingSpace(before + rest) == |before|
    decreases |before|
  {
    if |before| > 0 {
      assert (before + rest)[1..] == before[1..] + rest;
      LeadingSpaceOf(before[1..], rest);
    } else {
      assert before + rest == rest;
    }
  }

  // `key_type_name`.

  function KeyTypeName(k: KeyType): (r: string)
    ensures |r| > 0
  {
    match k
    case BooleanType => "bool"
    case BytesType => "bytes"
    case FloatType => "float"
    case IntegerType => "int"
    case ListType => "list"
    case MapType => "map"
    case SetType => "set"
    case StringType => "str"
  }

  /** Every key type has its own name. */
  lemma KeyTypeNamesDistinct(a: KeyType, b: KeyType)
    ensures KeyTypeName(a) == KeyTypeName(b) ==> a == b
  {
  }
}
