/** Arguments of the IMAP RENAME command (section 6.3.5 of RFC 3501). */
module Rename {
  import opened Wrappers
  import opened ImapRequest

  datatype RenameArguments = RenameArguments(tag: string, mailboxName: string, newMailboxName: string)

  /**
   * `Request::parse_rename`; `decode` is the modified UTF-7 decoding of
   * mailbox names. A wrong token count is reported as a BAD response
   * carrying the request's tag.
   */
  function ParseRename(req: Request, decode: string -> string): (r: Result<RenameArguments, Bad>)
    ensures r.Ok? <==> |req.tokens| == 2 && req.tokens[0].text.Ok? && req.tokens[1].text.Ok?
    ensures r.Ok? ==> r.value == RenameArguments(req.tag, decode(req.tokens[0].text.value), decode(req.tokens[1].text.value))
    ensures r.Err? ==> r.error.tag == req.tag
    ensures |req.tokens| == 0 ==> r == Err(Bad(req.tag, Text("Missing argument.")))
    ensures |req.tokens| == 1 ==> r == Err(Bad(req.tag, Text("Missing new mailbox name.")))
    ensures |req.tokens| > 2 ==> r == Err(Bad(req.tag, Text("Too many arguments.")))
    ensures |req.tokens| == 2 && req.tokens[0].text.Err? ==> r == Err(Bad(req.tag, Text(req.tokens[0].text.error)))
    ensures |req.tokens| == 2 && req.tokens[0].text.Ok? && req.tokens[1].text.Err? ==>
              r == Err(Bad(req.tag, Text(req.tokens[1].text.error)))
  {
    if |req.tokens| == 2 then
      match StringArgument(req.tag, req.tokens[0])
      case Err(e) => Err(e)
      case Ok(mailbox) =>
        match StringArgument(req.tag, req.tokens[1])
        case Err(e) => Err(e)
        case Ok(newName) => Ok(RenameArguments(req.tag, decode(mailbox), decode(newName)))
    else if |req.tokens| == 0 then Err(Bad(req.tag, Text("Missing argument.")))
    else if |req.tokens| == 1 then Err(Bad(req.tag, Text("Missing new mailbox name.")))
    else Err(Bad(req.tag, Text("Too many arguments.")))
  }
}
