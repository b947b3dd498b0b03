/**
 * Arguments of the ACL commands of RFC 4314 (SETACL, DELETEACL, GETACL,
 * LISTRIGHTS, MYRIGHTS) and the mod-rights string of SETACL.
 */
module Acl {
  import opened Wrappers
  import opened ImapRequest

  /** The rights of section 2.1 of RFC 4314. */
  datatype Right =
    | Lookup | Read | Seen | Write | Insert | Post
    | CreateMailbox | DeleteMailbox | DeleteMessages | Expunge | Administer

  datatype ModRightsOp = Replace | Add | Remove

  datatype ModRights = ModRights(op: ModRightsOp, rights: seq<Right>)

  const Plus: byte := 43
  const Minus: byte := 45

  /** The right a letter stands for, including the RFC 2086 letters `c` and `d`. */
  function RightOf(b: byte): Option<Right> {
    match b
    case 108 /* l */ => Some(Lookup)
    case 114 /* r */ => Some(Read)
    case 115 /* s */ => Some(Seen)
    case 119 /* w */ => Some(Write)
    case 105 /* i */ => Some(Insert)
    case 112 /* p */ => Some(Post)
    case 107 /* k */ => Some(CreateMailbox)
    case 120 /* x */ => Some(DeleteMailbox)
    case 116 /* t */ => Some(DeleteMessages)
    case 101 /* e */ => Some(Expunge)
    case 97  /* a */ => Some(Administer)
    case 100 /* d */ => Some(DeleteMessages)
    case 99  /* c */ => Some(CreateMailbox)
    case _ => None
  }

  /** The operation a leading `+` or `-` selects. */
  function OpOf(value: seq<byte>): ModRightsOp {
    if |value| > 0 && value[0] == Plus then Add
    else if |value| > 0 && value[0] == Minus then Remove
    else Replace
  }

  /** Where the right letters start: after a leading sign, if any. */
  function BodyStart(value: seq<byte>): (start: nat)
    ensures start <= |value| && (start == 1 <==> OpOf(value) != Replace) && start <= 1
  {
    if OpOf(value) == Replace then 0 else 1
  }

  /** Position of the first byte that is not a right letter, or `|bs|`. */
  function FirstInvalid(bs: seq<byte>): (i: nat)
    ensures i <= |bs|
    ensures forall k :: 0 <= k < i ==> RightOf(bs[k]).Some?
    ensures i < |bs| ==> RightOf(bs[i]).None?
  {
    if bs == [] then 0
    else if RightOf(bs[0]).None? then 0
    else 1 + FirstInvalid(bs[1..])
  }

  function PushUnique(rs: seq<Right>, r: Right): seq<Right> {
    if r in rs then rs else rs + [r]
  }

  /** The rights named by the letters of `bs`, each once, in order of first mention. */
  function Collected(bs: seq<byte>): seq<Right> {
    if bs == [] then []
    else
      var rs := Collected(bs[..|bs| - 1]);
      match RightOf(bs[|bs| - 1])
      case Some(r) => PushUnique(rs, r)
      case None => rs
  }

  /** The reply to a mod-rights string. */
  function ModRightsOf(value: seq<byte>): Result<ModRights, Reason> {
    var body := value[BodyStart(value)..];
    var i := FirstInvalid(body);
    if i < |body| then Err(InvalidCharacter(body[i]))
    else if Collected(body) == [] then Err(Text("At least one right has to be specified."))
    else Ok(ModRights(OpOf(value), Collected(body)))
  }

  /** `ModRights::parse` */
  method ParseModRights(value: seq<byte>) returns (r: Result<ModRights, Reason>)
    ensures r == ModRightsOf(value)
  {
    var op := Replace;
    var rights: seq<Right> := [];
    var start := BodyStart(value);
    var pos := 0;
    while pos < |value|
      invariant 0 <= pos <= |value|
      invariant pos == 0 ==> op == Replace && rights == []
      invariant pos > 0 ==> op == OpOf(value) && start <= pos
      invariant pos > 0 ==> rights == Collected(value[start..pos])
      invariant pos > 0 ==> forall k :: start <= k < pos ==> RightOf(value[k]).Some?
    {
      var ch := value[pos];
      var right := RightOf(ch);
      if right.Some? {
        CollectedStepAt(value, start, pos);
        rights := PushUnique(rights, right.value);
      } else if ch == Plus && pos == 0 {
        op := Add;
      } else if ch == Minus && pos == 0 {
        op := Remove;
      } else {
        InvalidAt(value, start, pos);
        return Err(InvalidCharacter(ch));
      }
      pos := pos + 1;
    }
    assert value[start..pos] == value[start..];
    if rights != [] {
      r := Ok(ModRights(op, rights));
    } else {
      r := Err(Text("At least one right has to be specified."));
    }
  }

  /** One more right letter of the body. */
  lemma CollectedStepAt(value: seq<byte>, start: nat, pos: nat)
    requires start <= pos < |value| && RightOf(value[pos]).Some?
    ensures Collected(value[start..pos + 1]) == PushUnique(Collected(value[start..pos]), RightOf(value[pos]).value)
  {
    assert value[start..pos + 1][..pos - start] == value[start..pos];
  }

  /** The first byte of the body that is no right letter is the one reported. */
  lemma InvalidAt(value: seq<byte>, start: nat, pos: nat)
    requires start == BodyStart(value) && start <= pos < |value| && RightOf(value[pos]).None?
    requires forall k :: start <= k < pos ==> RightOf(value[k]).Some?
    ensures ModRightsOf(value) == Err(InvalidCharacter(value[pos]))
  {
    var body := value[start..];
    assert body[pos - start] == value[pos];
    assert FirstInvalid(body) == pos - start;
  }

  predicate NoDuplicates(rs: seq<Right>) {
    forall i, j :: 0 <= i < j < |rs| ==> rs[i] != rs[j]
  }

  /** Position of the first letter of `bs` that names `r`. */
  function FirstMention(bs: seq<byte>, r: Right): (i: nat)
    ensures i <= |bs|
    ensures forall k :: 0 <= k < i ==> RightOf(bs[k]) != Some(r)
    ensures i < |bs| ==> RightOf(bs[i]) == Some(r)
  {
    if bs == [] then 0
    else if RightOf(bs[0]) == Some(r) then 0
    else 1 + FirstMention(bs[1..], r)
  }

  lemma FirstMentionSnoc(bs: seq<byte>, b: byte, r: Right)
    ensures FirstMention(bs, r) < |bs| ==> FirstMention(bs + [b], r) == FirstMention(bs, r)
    ensures FirstMention(bs, r) == |bs| ==> (FirstMention(bs + [b], r) == |bs| <==> RightOf(b) == Some(r))
  {
    var s := bs + [b];
    var i := FirstMention(s, r);
    var j := FirstMention(bs, r);
    if i < |bs| {
      assert s[i] == bs[i];
      assert j <= i;
    }
    if j < |bs| {
      assert s[j] == bs[j];
      assert i <= j;
    } else {
      assert i >= |bs|;
      assert s[|bs|] == b;
    }
  }

  /**
   * The collected rights hold no duplicates, are exactly the rights some
   * letter names, and come in the order of their first mention.
   */
  lemma {:induction false} CollectedRights(bs: seq<byte>)
    ensures NoDuplicates(Collected(bs))
    ensures forall r :: r in Collected(bs) <==> FirstMention(bs, r) < |bs|
    ensures forall i, j :: 0 <= i < j < |Collected(bs)| ==>
              FirstMention(bs, Collected(bs)[i]) < FirstMention(bs, Collected(bs)[j])
  {
    if bs != [] {
      var init := bs[..|bs| - 1];
      var b := bs[|bs| - 1];
      assert bs == init + [b];
      CollectedRights(init);
      forall r
        ensures FirstMention(init, r) < |init| ==> FirstMention(bs, r) == FirstMention(init, r)
        ensures FirstMention(init, r) == |init| ==> (FirstMention(bs, r) == |init| <==> RightOf(b) == Some(r))
      {
        FirstMentionSnoc(init, b, r);
      }
    }
  }

  /** A leading sign selects the operation; `+` or `-` anywhere else is rejected. */
  lemma SignsOnlyFirst(value: seq<byte>, pos: nat)
    requires 0 < pos < |value| && (value[pos] == Plus || value[pos] == Minus)
    requires forall k :: BodyStart(value) <= k < pos ==> RightOf(value[k]).Some?
    ensures ModRightsOf(value) == Err(InvalidCharacter(value[pos]))
  {
    var start := BodyStart(value);
    var body := value[start..];
    assert body[pos - start] == value[pos];
    assert FirstInvalid(body) == pos - start;
  }

  /** `d` and `c` are the same rights as `t` and `k`. */
  lemma Rfc2086Letters()
    ensures RightOf(100) == RightOf(116) == Some(DeleteMessages)
    ensures RightOf(99) == RightOf(107) == Some(CreateMailbox)
  {
  }

  /** Nothing but a sign, or nothing at all, names no right. */
  lemma NoRightsRejected(value: seq<byte>)
    requires value == [] || value == [Plus] || value == [Minus]
    ensures ModRightsOf(value) == Err(Text("At least one right has to be specified."))
  {
  }

  lemma CollectedStep(bs: seq<byte>, b: byte, s: seq<byte>, r: Right)
    requires s == bs + [b] && RightOf(b) == Some(r)
    ensures Collected(s) == PushUnique(Collected(bs), r)
  {
    assert s[..|bs|] == bs;
  }

  const EightRights: seq<Right> := [Lookup, Read, Seen, Write, Insert, CreateMailbox, DeleteMessages, Administer]

  lemma CollectedLrswi()
    ensures Collected([108, 114, 115, 119, 105]) == [Lookup, Read, Seen, Write, Insert]
  {
    CollectedStep([], 108, [108], Lookup);
    CollectedStep([108], 114, [108, 114], Read);
    CollectedStep([108, 114], 115, [108, 114, 115], Seen);
    CollectedStep([108, 114, 115], 119, [108, 114, 115, 119], Write);
    CollectedStep([108, 114, 115, 119], 105, [108, 114, 115, 119, 105], Insert);
  }

  lemma CollectedLrswik(c: byte)
    requires c == 107 || c == 99
    ensures Collected([108, 114, 115, 119, 105, c]) == [Lookup, Read, Seen, Write, Insert, CreateMailbox]
  {
    CollectedLrswi();
    CollectedStep([108, 114, 115, 119, 105], c, [108, 114, 115, 119, 105, c], CreateMailbox);
  }

  lemma CollectedLrswikd(c: byte)
    requires c == 107 || c == 99
    ensures Collected([108, 114, 115, 119, 105, c, 100]) == [Lookup, Read, Seen, Write, Insert, CreateMailbox, DeleteMessages]
  {
    CollectedLrswik(c);
    CollectedStep([108, 114, 115, 119, 105, c], 100, [108, 114, 115, 119, 105, c, 100], DeleteMessages);
  }

  /** "lrswikda" and "lrswicda" name the same eight rights. */
  lemma CollectedLrswikda(c: byte)
    requires c == 107 || c == 99
    ensures Collected([108, 114, 115, 119, 105, c, 100, 97]) == EightRights
  {
    CollectedLrswikd(c);
    CollectedStep([108, 114, 115, 119, 105, c, 100], 97, [108, 114, 115, 119, 105, c, 100, 97], Administer);
  }

  /** A body made only of right letters is accepted with the rights it collects. */
  lemma AllLettersAccepted(value: seq<byte>)
    requires forall k :: BodyStart(value) <= k < |value| ==> RightOf(value[k]).Some?
    requires Collected(value[BodyStart(value)..]) != []
    ensures ModRightsOf(value) == Ok(ModRights(OpOf(value), Collected(value[BodyStart(value)..])))
  {
  }

  /** "lrswikda" names eight rights, to be replaced. */
  lemma Rfc4314ReplaceExample()
    ensures ModRightsOf([108, 114, 115, 119, 105, 107, 100, 97]) == Ok(ModRights(Replace, EightRights))
  {
    var v: seq<byte> := [108, 114, 115, 119, 105, 107, 100, 97];
    CollectedLrswikda(107);
    assert BodyStart(v) == 0 && v[0..] == v;
    AllLettersAccepted(v);
  }

  /** "-lrswicda" names the same eight rights, to be removed. */
  lemma Rfc4314RemoveExample()
    ensures ModRightsOf([Minus, 108, 114, 115, 119, 105, 99, 100, 97]) == Ok(ModRights(Remove, EightRights))
  {
    var value: seq<byte> := [Minus, 108, 114, 115, 119, 105, 99, 100, 97];
    CollectedLrswikda(99);
    assert BodyStart(value) == 1 && value[1..] == [108, 114, 115, 119, 105, 99, 100, 97];
    AllLettersAccepted(value);
  }

  /** "+cda" adds three rights, and a repeated letter adds nothing more. */
  lemma Rfc4314AddExample()
    ensures ModRightsOf([Plus, 99, 100, 97]) == Ok(ModRights(Add, [CreateMailbox, DeleteMessages, Administer]))
  {
    var v: seq<byte> := [99, 100, 97];
    assert [Plus, 99, 100, 97][1..] == v;
    CollectedStep([], 99, [99], CreateMailbox);
    CollectedStep([99], 100, [99, 100], DeleteMessages);
    CollectedStep([99, 100], 97, [99, 100, 97], Administer);
    assert Collected(v) == [CreateMailbox, DeleteMessages, Administer];
    assert forall k :: 0 <= k < |v| ==> RightOf(v[k]).Some?;
    assert FirstInvalid(v) == |v|;
    assert OpOf([Plus, 99, 100, 97]) == Add;
    assert BodyStart([Plus, 99, 100, 97]) == 1;
  }

  // ---------------------------------------------------------------------
  // parse_acl

  datatype AclCommand = SetAcl | DeleteAcl | ListRights | GetAcl | MyRights

  predicate HasIdentifier(c: AclCommand) {
    c == SetAcl || c == DeleteAcl || c == ListRights
  }

  predicate HasModRights(c: AclCommand) {
    c == SetAcl
  }

  datatype AclArguments = AclArguments(
    tag: string,
    mailboxName: string,
    identifier: Option<string>,
    modRights: Option<ModRights>)

  /** `mod_rights` of SETACL, when the identifier was read. */
  function RightsArgument(req: Request, c: AclCommand): Result<Option<ModRights>, Bad>
    requires |req.tokens| >= 2
  {
    if !HasModRights(c) then Ok(None)
    else if |req.tokens| < 3 then Err(Bad(req.tag, Text("Missing rights.")))
    else match ModRightsOf(req.tokens[2].bytes)
      case Ok(m) => Ok(Some(m))
      case Err(e) => Err(Bad(req.tag, e))
  }

  /**
   * `Request::parse_acl`: the tokens are read in turn as mailbox name,
   * identifier and rights, as far as the command needs them; `decode` is
   * the modified UTF-7 decoding of mailbox names.
   */
  function ParseAcl(req: Request, c: AclCommand, decode: string -> string): (r: Result<AclArguments, Bad>)
    ensures r.Ok? ==> r.value.tag == req.tag
    ensures r.Err? ==> r.error.tag == req.tag
    ensures |req.tokens| == 0 ==> r == Err(Bad(req.tag, Text("Missing mailbox name.")))
    ensures |req.tokens| == 1 && HasIdentifier(c) && req.tokens[0].text.Ok? ==>
              r == Err(Bad(req.tag, Text("Missing identifier.")))
    ensures |req.tokens| == 2 && HasModRights(c) && req.tokens[0].text.Ok? && req.tokens[1].text.Ok? ==>
              r == Err(Bad(req.tag, Text("Missing rights.")))
    ensures |req.tokens| >= 1 && req.tokens[0].text.Err? ==> r == Err(Bad(req.tag, Text(req.tokens[0].text.error)))
    ensures |req.tokens| >= 2 && HasIdentifier(c) && req.tokens[0].text.Ok? && req.tokens[1].text.Err? ==>
              r == Err(Bad(req.tag, Text(req.tokens[1].text.error)))
    ensures |req.tokens| >= 3 && HasModRights(c) && req.tokens[0].text.Ok? && req.tokens[1].text.Ok? &&
              ModRightsOf(req.tokens[2].bytes).Err? ==>
              r == Err(Bad(req.tag, ModRightsOf(req.tokens[2].bytes).error))
    ensures r.Ok? ==> && |req.tokens| >= (if HasModRights(c) then 3 else if HasIdentifier(c) then 2 else 1)
                      && req.tokens[0].text.Ok?
                      && r.value.mailboxName == decode(req.tokens[0].text.value)
                      && (r.value.identifier.Some? <==> HasIdentifier(c))
                      && (r.value.identifier.Some? ==> req.tokens[1].text.Ok? && r.value.identifier == Some(req.tokens[1].text.value))
                      && (r.value.modRights.Some? <==> HasModRights(c))
                      && (r.value.modRights.Some? ==> Ok(r.value.modRights.value) == ModRightsOf(req.tokens[2].bytes))
  {
    if |req.tokens| == 0 then Err(Bad(req.tag, Text("Missing mailbox name.")))
    else match StringArgument(req.tag, req.tokens[0])
      case Err(e) => Err(e)
      case Ok(mailbox) =>
        if !HasIdentifier(c) then Ok(AclArguments(req.tag, decode(mailbox), None, None))
        else if |req.tokens| < 2 then Err(Bad(req.tag, Text("Missing identifier.")))
        else match StringArgument(req.tag, req.tokens[1])
          case Err(e) => Err(e)
          case Ok(identifier) =>
            match RightsArgument(req, c)
            case Err(e) => Err(e)
            case Ok(rights) => Ok(AclArguments(req.tag, decode(mailbox), Some(identifier), rights))
  }

  /** Tokens beyond those the command needs are never looked at. */
  lemma AclExtraTokensIgnored(req: Request, c: AclCommand, decode: string -> string, extra: seq<Token>)
    requires |req.tokens| >= (if HasModRights(c) then 3 else if HasIdentifier(c) then 2 else 1)
    ensures ParseAcl(req.(tokens := req.tokens + extra), c, decode) == ParseAcl(req, c, decode)
  {
    var req' := req.(tokens := req.tokens + extra);
    assert req'.tokens[0] == req.tokens[0];
    if HasIdentifier(c) {
      assert req'.tokens[1] == req.tokens[1];
    }
    if HasModRights(c) {
      assert req'.tokens[2] == req.tokens[2];
    }
  }

  /** A well-formed request succeeds, whatever the command. */
  lemma AclAccepts(req: Request, c: AclCommand, decode: string -> string)
    requires |req.tokens| >= 3 && req.tokens[0].text.Ok? && req.tokens[1].text.Ok?
    requires ModRightsOf(req.tokens[2].bytes).Ok?
    ensures ParseAcl(req, c, decode).Ok?
  {
  }
}
