/**
 * The error codes that travel on the wire: the dispatch errors handlers return and
 * the parse errors of the request framing parser.
 */
module Errors {
  import opened Bytes
  import opened Wrappers

  /**
   * One error type for every handler. The first five variants are the enumeration
   * with fixed discriminants 0..4; the remaining five are returned by handlers but
   * have no discriminant of their own in that enumeration, so they are numbered on
   * from 5 in declaration order.
   */
  datatype DispatchError =
    | ArgumentRetrieval
    | KeyRetrieval
    | WrongType
    | KeyTypeUnexpected
    | PreconditionFailed
    | KeyUnspecified
    | KeyNonexistent
    | KeyTypeDifferent
    | KeyTypeRequired
    | KeyTypeInvalid

  /** The variants that carry a discriminant in the error enumeration. */
  predicate IsCoded(e: DispatchError) {
    e.ArgumentRetrieval? || e.KeyRetrieval? || e.WrongType? || e.KeyTypeUnexpected? || e.PreconditionFailed?
  }

  /** `value as u8`. */
  function Code(e: DispatchError): (r: uint8)
    ensures IsCoded(e) <==> r < 5
  {
    match e
    case ArgumentRetrieval => 0
    case KeyRetrieval => 1
    case WrongType => 2
    case KeyTypeUnexpected => 3
    case PreconditionFailed => 4
    case KeyUnspecified => 5
    case KeyNonexistent => 6
    case KeyTypeDifferent => 7
    case KeyTypeRequired => 8
    case KeyTypeInvalid => 9
  }

  /** `Error::try_from(u8)`: accepts exactly the discriminants 0..4. */
  function TryFromU8(b: uint8): (r: Option<DispatchError>)
    ensures r.Some? <==> b < 5
    ensures r.Some? ==> Code(r.value) == b && IsCoded(r.value)
  {
    match b
    case 0 => Some(ArgumentRetrieval)
    case 1 => Some(KeyRetrieval)
    case 2 => Some(WrongType)
    case 3 => Some(KeyTypeUnexpected)
    case 4 => Some(PreconditionFailed)
    case _ => None
  }

  lemma TryFromCode(e: DispatchError)
    requires IsCoded(e)
    ensures TryFromU8(Code(e)) == Some(e)
  {
  }

  lemma CodeInjective(a: DispatchError, b: DispatchError)
    ensures Code(a) == Code(b) ==> a == b
  {
  }

  /** The `Display` text of the five coded variants. */
  function Message(e: DispatchError): (r: string)
    requires IsCoded(e)
    ensures |r| > 0
  {
    match e
    case ArgumentRetrieval => "couldn't retrieve required argument"
    case KeyRetrieval => "couldn't retrieve key"
    case KeyTypeUnexpected => "didn't expect a specified request key type"
    case PreconditionFailed => "a precondition for the command failed"
    case WrongType => "the key has the wrong type"
  }

  lemma MessagesDistinct(a: DispatchError, b: DispatchError)
    requires IsCoded(a) && IsCoded(b) && a != b
    ensures Message(a) != Message(b)
  {
  }
}

/** The errors of the request framing parser, sent back as parse-error responses. */
module ParseErrors {
  import opened Bytes
  import opened Wrappers

  /** The request framing parser's errors. */
  datatype ParseError = CommandIdInvalid | KeyTypeInvalid

  function Code(e: ParseError): uint8 {
    match e
    case CommandIdInvalid => 0
    case KeyTypeInvalid => 1
  }

  /** `ParseError::try_from(u8)`. */
  function TryFromU8(b: uint8): (r: Option<ParseError>)
    ensures r.Some? <==> b < 2
    ensures r.Some? ==> Code(r.value) == b
  {
    if b == 0 then Some(CommandIdInvalid)
    else if b == 1 then Some(KeyTypeInvalid)
    else None
  }

  lemma TryFromCode(e: ParseError)
    ensures TryFromU8(Code(e)) == Some(e)
  {
  }
}
