/**
 * The earlier crate's command table: eight commands under the codes the
 * engine later kept, with `has_key` in place of a key notation.
 */
module LegacyCommandIds {
  import opened Bytes
  import opened Wrappers

  datatype ArgumentNotation = ArgsMultiple | ArgsNone | ArgsOne

  datatype CommandType = Increment | Decrement | IncrementBy | DecrementBy | Append | Length | Echo | Stats

  /** The `#[repr(u8)]` discriminant: one of the codes `try_from` accepts. */
  function Code(c: CommandType): (r: uint8)
    ensures r in ValidCodes
  {
    match c
    case Increment => 0
    case Decrement => 1
    case IncrementBy => 2
    case DecrementBy => 3
    case Append => 20
    case Length => 21
    case Echo => 100
    case Stats => 101
  }

  const ValidCodes: set<int> := {0, 1, 2, 3, 20, 21, 100, 101}

  /** `CommandType::try_from(u8)`: the eight codes, and nothing else. */
  function TryFromU8(b: uint8): (r: Option<CommandType>)
    ensures r.Some? <==> b in ValidCodes
    ensures r.Some? ==> Code(r.value) == b
  {
    match b
    case 0 => Some(Increment)
    case 1 => Some(Decrement)
    case 2 => Some(IncrementBy)
    case 3 => Some(DecrementBy)
    case 20 => Some(Append)
    case 21 => Some(Length)
    case 100 => Some(Echo)
    case 101 => Some(Stats)
    case _ => None
  }

  /** Decoding a discriminant gives back the command it came from. */
  lemma TryFromCode(c: CommandType)
    ensures TryFromU8(Code(c)) == Some(c)
  {
  }

  /** `argument_notation`: only `echo` takes any number of arguments. */
  function ArgumentNotationOf(c: CommandType): (a: ArgumentNotation)
    ensures a == ArgsMultiple <==> c == Echo
    ensures a == ArgsOne <==> c in {Append, DecrementBy, IncrementBy, Length}
  {
    match c
    case Append => ArgsOne
    case Echo => ArgsMultiple
    case Increment => ArgsNone
    case IncrementBy => ArgsOne
    case Decrement => ArgsNone
    case DecrementBy => ArgsOne
    case Stats => ArgsNone
    case Length => ArgsOne
  }

  /** `has_key`: every command names a key except `echo` and `stats`. */
  predicate HasKey(c: CommandType)
    ensures !HasKey(c) <==> c == Echo || c == Stats
  {
    !(c.Echo? || c.Stats?)
  }

  /** A simple command takes neither arguments nor a key; only `stats` is one. */
  predicate IsSimple(c: CommandType)
    ensures IsSimple(c) <==> c == Stats
  {
    ArgumentNotationOf(c) == ArgsNone && !HasKey(c)
  }

  function Name(c: CommandType): (r: string)
    ensures |r| > 0
  {
    match c
    case Append => "append"
    case DecrementBy => "decrement:by"
    case Decrement => "decrement"
    case Echo => "echo"
    case IncrementBy => "increment:by"
    case Increment => "increment"
    case Stats => "stats"
    case Length => "length"
  }

  /** `CommandType::from_str`: exact, case-sensitive match against the names. */
  function FromStr(s: string): (r: Option<CommandType>)
    ensures r.Some? ==> Name(r.value) == s
  {
    if s == "append" then Some(Append)
    else if s == "decrement:by" then Some(DecrementBy)
    else if s == "decrement" then Some(Decrement)
    else if s == "echo" then Some(Echo)
    else if s == "increment:by" then Some(IncrementBy)
    else if s == "increment" then Some(Increment)
    else if s == "stats" then Some(Stats)
    else if s == "length" then Some(Length)
    else None
  }

  /** Parsing a command's name gives back the command, so parsing succeeds exactly on the eight names. */
  lemma FromStrName(c: CommandType)
    ensures FromStr(Name(c)) == Some(c)
  {
  }

  lemma NameInjective(a: CommandType, b: CommandType)
    ensures Name(a) == Name(b) ==> a == b
  {
    if Name(a) == Name(b) {
      FromStrName(a);
      FromStrName(b);
    }
  }

  /** The engine's newer names are not legacy names. */
  lemma FromStrRejects()
    ensures FromStr("set") == None && FromStr("increment:int") == None && FromStr("") == None
  {
  }
}

/**
 * The oldest command table, the one the oldest request parser reads: the same
 * codes, with the integer and string commands named after their types.
 */
module LegacyKinds {
  import opened Bytes
  import opened Wrappers
  import L = LegacyCommandIds

  datatype CommandType = IncrementInt | DecrementInt | IncrementIntBy | DecrementIntBy | Append | StringLength | Echo | Stats

  /** The `#[repr(u8)]` discriminant. */
  function Code(c: CommandType): uint8 {
    match c
    case IncrementInt => 0
    case DecrementInt => 1
    case IncrementIntBy => 2
    case DecrementIntBy => 3
    case Append => 20
    case StringLength => 21
    case Echo => 100
    case Stats => 101
  }

  /** `CommandType::try_from(u8)`: the same eight codes as the later table. */
  function TryFromU8(b: uint8): (r: Option<CommandType>)
    ensures r.Some? <==> b in L.ValidCodes
    ensures r.Some? ==> Code(r.value) == b
  {
    match b
    case 0 => Some(IncrementInt)
    case 1 => Some(DecrementInt)
    case 2 => Some(IncrementIntBy)
    case 3 => Some(DecrementIntBy)
    case 20 => Some(Append)
    case 21 => Some(StringLength)
    case 100 => Some(Echo)
    case 101 => Some(Stats)
    case _ => None
  }

  lemma TryFromCode(c: CommandType)
    ensures TryFromU8(Code(c)) == Some(c)
  {
  }

  /** `argument_notation`: only `echo` takes any number of arguments. */
  function ArgumentNotationOf(c: CommandType): (a: L.ArgumentNotation)
    ensures a == L.ArgsMultiple <==> c == Echo
    ensures a == L.ArgsOne <==> c in {Append, IncrementIntBy, DecrementIntBy, StringLength}
  {
    match c
    case Append => L.ArgsOne
    case Echo => L.ArgsMultiple
    case IncrementInt => L.ArgsNone
    case IncrementIntBy => L.ArgsOne
    case DecrementInt => L.ArgsNone
    case DecrementIntBy => L.ArgsOne
    case Stats => L.ArgsNone
    case StringLength => L.ArgsOne
  }

  /** `has_key`: every command names a key except `echo` and `stats`. */
  predicate HasKey(c: CommandType)
    ensures !HasKey(c) <==> c == Echo || c == Stats
  {
    !(c.Echo? || c.Stats?)
  }

  /** Only `stats` is simple. */
  predicate IsSimple(c: CommandType)
    ensures IsSimple(c) <==> c == Stats
  {
    ArgumentNotationOf(c) == L.ArgsNone && !HasKey(c)
  }

  function Name(c: CommandType): (r: string)
    ensures |r| > 0
  {
    match c
    case Append => "append"
    case DecrementIntBy => "decrement:int:by"
    case DecrementInt => "decrement:int"
    case Echo => "echo"
    case IncrementIntBy => "increment:int:by"
    case IncrementInt => "increment:int"
    case Stats => "stats"
    case StringLength => "string:length"
  }

  /** `CommandType::from_str`: exact, case-sensitive match against the names. */
  function FromStr(s: string): (r: Option<CommandType>)
    ensures r.Some? ==> Name(r.value) == s
  {
    if s == "append" then Some(Append)
    else if s == "decrement:int:by" then Some(DecrementIntBy)
    else if s == "decrement:int" then Some(DecrementInt)
    else if s == "echo" then Some(Echo)
    else if s == "increment:int:by" then Some(IncrementIntBy)
    else if s == "increment:int" then Some(IncrementInt)
    else if s == "stats" then Some(Stats)
    else if s == "string:length" then Some(StringLength)
    else None
  }

  lemma FromStrName(c: CommandType)
    ensures FromStr(Name(c)) == Some(c)
  {
  }

  lemma NameInjective(a: CommandType, b: CommandType)
    ensures Name(a) == Name(b) ==> a == b
  {
    if Name(a) == Name(b) {
      FromStrName(a);
      FromStrName(b);
    }
  }

  /** The two tables agree code for code: the same discriminant names the same operation. */
  function Renamed(c: CommandType): (r: L.CommandType)
    ensures L.Code(r) == Code(c)
    ensures L.HasKey(r) == HasKey(c) && L.IsSimple(r) == IsSimple(c)
  {
    match c
    case IncrementInt => L.Increment
    case DecrementInt => L.Decrement
    case IncrementIntBy => L.IncrementBy
    case DecrementIntBy => L.DecrementBy
    case Append => L.Append
    case StringLength => L.Length
    case Echo => L.Echo
    case Stats => L.Stats
  }

  /** The later table's "length" and "increment" are not names here; the typed names are. */
  lemma FromStrRejects()
    ensures FromStr("length") == None && FromStr("increment") == None && FromStr("") == None
    ensures FromStr("string:length") == Some(StringLength)
  {
  }
}
