/** The command identifiers of the wire protocol and their textual names. */
module CommandIds {
  import opened Bytes
  import opened Wrappers

  datatype ArgumentNotation = ArgsMultiple | ArgsNone | ArgsOne

  datatype KeyNotation = KeysMultiple | KeysNone | KeysOne | KeysTwo

  datatype CommandId =
    | Increment | Decrement | IncrementBy | DecrementBy
    | Set | Delete | Exists | Is | Rename
    | Append | Length | Keys
    | Echo | Stats

  /** The `#[repr(u8)]` discriminant; the top bit is always clear. */
  function Code(c: CommandId): (r: uint8)
    ensures r < 128
  {
    match c
    case Increment => 0
    case Decrement => 1
    case IncrementBy => 2
    case DecrementBy => 3
    case Set => 10
    case Delete => 12
    case Exists => 13
    case Is => 14
    case Rename => 15
    case Append => 20
    case Length => 21
    case Keys => 22
    case Echo => 100
    case Stats => 101
  }

  const ValidCodes: set<int> := {0, 1, 2, 3, 10, 12, 13, 14, 15, 20, 21, 22, 100, 101}

  /** `CommandId::try_from(u8)`. */
  function TryFromU8(b: uint8): (r: Option<CommandId>)
    ensures r.Some? <==> b in ValidCodes
    ensures r.Some? ==> Code(r.value) == b
  {
    match b
    case 0 => Some(Increment)
    case 1 => Some(Decrement)
    case 2 => Some(IncrementBy)
    case 3 => Some(DecrementBy)
    case 10 => Some(Set)
    case 12 => Some(Delete)
    case 13 => Some(Exists)
    case 14 => Some(Is)
    case 15 => Some(Rename)
    case 20 => Some(Append)
    case 21 => Some(Length)
    case 22 => Some(Keys)
    case 100 => Some(Echo)
    case 101 => Some(Stats)
    case _ => None
  }

  /** Decoding a discriminant gives back the command it came from. */
  lemma TryFromCode(c: CommandId)
    ensures TryFromU8(Code(c)) == Some(c)
  {
  }

  /** `argument_notation`: only `echo` takes any number of arguments. */
  function ArgumentNotationOf(c: CommandId): (a: ArgumentNotation)
    ensures a == ArgsMultiple <==> c == Echo
    ensures a == ArgsOne <==> c in {Append, Delete, DecrementBy, IncrementBy, Length, Set}
  {
    match c
    case Append => ArgsOne
    case Delete => ArgsOne
    case Decrement => ArgsNone
    case DecrementBy => ArgsOne
    case Echo => ArgsMultiple
    case Exists => ArgsNone
    case Increment => ArgsNone
    case IncrementBy => ArgsOne
    case Is => ArgsNone
    case Keys => ArgsNone
    case Length => ArgsOne
    case Rename => ArgsNone
    case Set => ArgsOne
    case Stats => ArgsNone
  }

  function KeyNotationOf(c: CommandId): (k: KeyNotation)
    ensures k == KeysNone <==> c in {Echo, Stats}
    ensures k == KeysMultiple <==> c in {Exists, Is}
    ensures k == KeysTwo <==> c == Rename
  {
    match c
    case Append => KeysOne
    case Delete => KeysOne
    case Decrement => KeysOne
    case DecrementBy => KeysOne
    case Echo => KeysNone
    case Exists => KeysMultiple
    case Increment => KeysOne
    case IncrementBy => KeysOne
    case Is => KeysMultiple
    case Keys => KeysOne
    case Length => KeysOne
    case Rename => KeysTwo
    case Set => KeysOne
    case Stats => KeysNone
  }

  /** A simple command takes neither arguments nor keys; only `stats` is one. */
  predicate IsSimple(c: CommandId)
    ensures IsSimple(c) <==> c == Stats
  {
    ArgumentNotationOf(c) == ArgsNone && KeyNotationOf(c) == KeysNone
  }

  function Name(c: CommandId): (r: string)
    ensures |r| > 0
  {
    match c
    case Append => "append"
    case DecrementBy => "decrement:by"
    case Decrement => "decrement"
    case Delete => "delete"
    case Echo => "echo"
    case Exists => "exists"
    case IncrementBy => "increment:by"
    case Increment => "increment"
    case Is => "is"
    case Keys => "keys"
    case Length => "length"
    case Rename => "rename"
    case Set => "set"
    case Stats => "stats"
  }

  /** `Display` writes exactly the name. */
  function Display(c: CommandId): (r: string)
    ensures FromStr(r) == Some(c)
  {
    Name(c)
  }

  /** `CommandId::from_str`: exact, case-sensitive match against the names. */
  function FromStr(s: string): (r: Option<CommandId>)
    ensures r.Some? ==> Name(r.value) == s
  {
    if s == "append" then Some(Append)
    else if s == "decrement:by" then Some(DecrementBy)
    else if s == "decrement" then Some(Decrement)
    else if s == "delete" then Some(Delete)
    else if s == "echo" then Some(Echo)
    else if s == "exists" then Some(Exists)
    else if s == "increment:by" then Some(IncrementBy)
    else if s == "increment" then Some(Increment)
    else if s == "is" then Some(Is)
    else if s == "keys" then Some(Keys)
    else if s == "length" then Some(Length)
    else if s == "rename" then Some(Rename)
    else if s == "set" then Some(Set)
    else if s == "stats" then Some(Stats)
    else None
  }

  /** Parsing a command's name gives back the command. */
  lemma FromStrName(c: CommandId)
    ensures FromStr(Name(c)) == Some(c)
  {
  }

  /** Parsing succeeds exactly on the fourteen names. */
  lemma FromStrExact(s: string)
    ensures FromStr(s).Some? <==> exists c :: Name(c) == s
  {
    if exists c :: Name(c) == s {
      var c :| Name(c) == s;
      FromStrName(c);
    }
  }

  lemma NameInjective(a: CommandId, b: CommandId)
    ensures Name(a) == Name(b) ==> a == b
  {
    if Name(a) == Name(b) {
      FromStrName(a);
      FromStrName(b);
    }
  }

  lemma FromStrRejects()
    ensures FromStr("Stats") == None && FromStr("") == None && FromStr("increment:int") == None
  {
  }
}
