/** The parts of a parsed IMAP command line that the argument parsers consume. */
module ImapRequest {
  import opened Wrappers

  type byte = b: int | 0 <= b < 256

  /**
   * An argument token: its raw bytes (`unwrap_bytes`) and its reading as a
   * string (`unwrap_string`), which fails with a message for tokens that
   * are not strings.
   */
  datatype Token = Token(bytes: seq<byte>, text: Result<string, string>)

  datatype Request = Request(tag: string, tokens: seq<Token>)

  /** Why a command was rejected. */
  datatype Reason = Text(message: string) | InvalidCharacter(ch: byte)

  /** A tagged BAD response. */
  datatype Bad = Bad(tag: string, reason: Reason)

  /** `token.unwrap_string().map_err(|v| bad(tag, v))` */
  function StringArgument(tag: string, t: Token): (r: Result<string, Bad>)
    ensures r.Ok? <==> t.text.Ok?
    ensures r.Ok? ==> r.value == t.text.value
    ensures r.Err? ==> r.error == Bad(tag, Text(t.text.error))
  {
    match t.text
    case Ok(s) => Ok(s)
    case Err(e) => Err(Bad(tag, Text(e)))
  }
}
