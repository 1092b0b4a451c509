/** Command lines: parsing them, printing them, and executing them on the table of rooms. */
module Commands {
  import opened Data
  import opened Tokenizer
  import opened Utf8
  import opened HubModel
  import opened AppModel
  import opened AppStore
  import RoomModel
  import Decimal
  import Mirror

  const MAX_NAME_BYTES := 256

  datatype Command =
    | RoomCreate
    | RoomDelete(id: nat)
    | RoomList
    | RoomInfo(id: nat)
    | Set(id: nat, container: string, key: string, value: Value)
    | Del(id: nat, container: string, key: string)
    | Get(id: nat, container: string, key: string)
    | Version(id: nat)
    | SetJwtKey(jwtKey: string)
    | TxBegin(id: nat)
    | TxEnd(id: nat)
    | TxAbort(id: nat)
    | TokenGen(id: nat, containers: seq<string>)

  type Parsed<T> = Result<T, string>

  /** JSON text to a value, or the parser's complaint. */
  type JsonParser = string -> Result<Value, string>

  function RoomIdOf(rest: string): Parsed<(nat, string)> {
    match TakeToken(rest)
    case Err(e) => Err(e)
    case Ok((tok, rest)) =>
      match Decimal.ParseU64(tok)
      case None => Err("ERROR invalid_room_id")
      case Some(id) => Ok((id, rest))
  }

  /** A room id and nothing else. */
  function OnlyRoomId(rest: string): Parsed<nat> {
    match RoomIdOf(rest)
    case Err(e) => Err(e)
    case Ok((id, rest)) => if TrimStart(rest) != [] then Err("ERROR extra_arguments") else Ok(id)
  }

  /** A room id, a container and a key, and what follows. */
  function KeyedOf(rest: string): Parsed<(nat, string, string, string)> {
    match RoomIdOf(rest)
    case Err(e) => Err(e)
    case Ok((id, rest)) =>
      match TakeToken(rest)
      case Err(e) => Err(e)
      case Ok((container, rest)) =>
        if ByteLength(container) > MAX_NAME_BYTES then Err("ERROR container_name_too_long")
        else
          match TakeToken(rest)
          case Err(e) => Err(e)
          case Ok((key, rest)) =>
            if ByteLength(key) > MAX_NAME_BYTES then Err("ERROR key_too_long") else Ok((id, container, key, rest))
  }

  function OnlyKeyed(rest: string): Parsed<(nat, string, string)> {
    match KeyedOf(rest)
    case Err(e) => Err(e)
    case Ok((id, container, key, rest)) =>
      if TrimStart(rest) != [] then Err("ERROR extra_arguments") else Ok((id, container, key))
  }

  function SetOf(rest: string, json: JsonParser): Parsed<Command> {
    match KeyedOf(rest)
    case Err(e) => Err(e)
    case Ok((id, container, key, rest)) =>
      var text := TrimStart(rest);
      if text == [] then Err("ERROR missing_value")
      else
        match json(text)
        case Err(e) => Err("ERROR invalid_json " + e)
        case Ok(value) => Ok(Set(id, container, key, value))
  }

  function TokenGenOf(rest: string): Parsed<Command> {
    match RoomIdOf(rest)
    case Err(e) => Err(e)
    case Ok((id, rest)) =>
      match Tokens(rest)
      case Err(e) => Err(e)
      case Ok(containers) => Ok(TokenGen(id, containers))
  }

  function WithId(make: nat -> Command, rest: string): Parsed<Command> {
    match OnlyRoomId(rest)
    case Err(e) => Err(e)
    case Ok(id) => Ok(make(id))
  }

  function WithKey(make: (nat, string, string) -> Command, rest: string): Parsed<Command> {
    match OnlyKeyed(rest)
    case Err(e) => Err(e)
    case Ok((id, container, key)) => Ok(make(id, container, key))
  }

  function WithNothing(cmd: Command, rest: string): Parsed<Command> {
    if TrimStart(rest) != [] then Err("ERROR extra_arguments") else Ok(cmd)
  }

  function JwtKeyOf(rest: string): Parsed<Command> {
    match TakeToken(rest)
    case Err(e) => Err(e)
    case Ok((key, rest)) => WithNothing(SetJwtKey(key), rest)
  }

  datatype Verb =
    | VRoomCreate | VRoomDelete | VRoomList | VRoomInfo | VSet | VDel | VGet | VVersion | VSetJwtKey
    | VTxBegin | VTxEnd | VTxAbort | VTokenGen
  {
    function Text(): string {
      match this
      case VRoomCreate => "ROOM.CREATE"
      case VRoomDelete => "ROOM.DELETE"
      case VRoomList => "ROOM.LIST"
      case VRoomInfo => "ROOM.INFO"
      case VSet => "SET"
      case VDel => "DEL"
      case VGet => "GET"
      case VVersion => "VERSION"
      case VSetJwtKey => "SET.JWTKEY"
      case VTxBegin => "TX.BEGIN"
      case VTxEnd => "TX.END"
      case VTxAbort => "TX.ABORT"
      case VTokenGen => "TOKEN.GEN"
    }
  }

  function VerbOf(tok: string): Option<Verb> {
    if tok == VRoomCreate.Text() then Some(VRoomCreate)
    else if tok == VRoomDelete.Text() then Some(VRoomDelete)
    else if tok == VRoomList.Text() then Some(VRoomList)
    else if tok == VRoomInfo.Text() then Some(VRoomInfo)
    else if tok == VSet.Text() then Some(VSet)
    else if tok == VDel.Text() then Some(VDel)
    else if tok == VGet.Text() then Some(VGet)
    else if tok == VVersion.Text() then Some(VVersion)
    else if tok == VSetJwtKey.Text() then Some(VSetJwtKey)
    else if tok == VTxBegin.Text() then Some(VTxBegin)
    else if tok == VTxEnd.Text() then Some(VTxEnd)
    else if tok == VTxAbort.Text() then Some(VTxAbort)
    else if tok == VTokenGen.Text() then Some(VTokenGen)
    else None
  }

  function ArgumentsOf(verb: Verb, rest: string, json: JsonParser): Parsed<Command> {
    match verb
    case VRoomCreate => WithNothing(RoomCreate, rest)
    case VRoomDelete => WithId((id: nat) => RoomDelete(id), rest)
    case VRoomList => WithNothing(RoomList, rest)
    case VRoomInfo => WithId((id: nat) => RoomInfo(id), rest)
    case VSet => SetOf(rest, json)
    case VDel => WithKey((id: nat, c: string, k: string) => Del(id, c, k), rest)
    case VGet => WithKey((id: nat, c: string, k: string) => Get(id, c, k), rest)
    case VVersion => WithId((id: nat) => Version(id), rest)
    case VSetJwtKey => JwtKeyOf(rest)
    case VTxBegin => WithId((id: nat) => TxBegin(id), rest)
    case VTxEnd => WithId((id: nat) => TxEnd(id), rest)
    case VTxAbort => WithId((id: nat) => TxAbort(id), rest)
    case VTokenGen => TokenGenOf(rest)
  }

  function Parse(line: string, json: JsonParser): Parsed<Command> {
    match TakeToken(line)
    case Err(e) => Err(e)
    case Ok((tok, rest)) =>
      var verb := VerbOf(tok);
      if verb.None? then Err("ERROR unknown_command") else ArgumentsOf(verb.value, rest, json)
  }

  lemma RoomVerbs(verb: Verb)
    requires verb.VRoomCreate? || verb.VRoomDelete? || verb.VRoomList? || verb.VRoomInfo?
    ensures VerbOf(verb.Text()) == Some(verb) && Bare(verb.Text())
  {
    assert VRoomList.Text()[5] == 'L' && VRoomInfo.Text()[5] == 'I';
    assert VRoomCreate.Text()[5] == 'C' && VRoomDelete.Text()[5] == 'D';
  }

  lemma KeyVerbs(verb: Verb)
    requires verb.VSet? || verb.VDel? || verb.VGet? || verb.VVersion?
    ensures VerbOf(verb.Text()) == Some(verb) && Bare(verb.Text())
  {
    assert VSet.Text()[0] == 'S' && VDel.Text()[0] == 'D' && VGet.Text()[0] == 'G';
  }

  lemma OtherVerbs(verb: Verb)
    requires verb.VTxBegin? || verb.VTxEnd? || verb.VTxAbort? || verb.VSetJwtKey? || verb.VTokenGen?
    ensures VerbOf(verb.Text()) == Some(verb) && Bare(verb.Text())
  {
    assert VTxBegin.Text()[3] == 'B' && VTxAbort.Text()[3] == 'A';
    assert VTxBegin.Text()[0] == 'T' && VTokenGen.Text()[0] == 'T';
    assert VRoomList.Text()[0] == 'R' && VRoomInfo.Text()[0] == 'R';
  }

  lemma VerbOfText(verb: Verb)
    ensures VerbOf(verb.Text()) == Some(verb)
    ensures Bare(verb.Text())
  {
    if verb.VRoomCreate? || verb.VRoomDelete? || verb.VRoomList? || verb.VRoomInfo? {
      RoomVerbs(verb);
    } else if verb.VSet? || verb.VDel? || verb.VGet? || verb.VVersion? {
      KeyVerbs(verb);
    } else {
      OtherVerbs(verb);
    }
  }

  // ---------------------------------------------------------------- printing

  function Line(verb: Verb, args: string): string {
    verb.Text() + [' '] + args
  }

  /** A room id followed by the rest of the arguments. */
  function IdThen(id: nat, rest: string): string {
    Decimal.Print(id) + rest
  }

  function NamesThen(c: string, k: string, rest: string): string {
    [' '] + QuotedLine(c) + ([' '] + QuotedLine(k) + rest)
  }

  /** The line for a command, with names quoted and the value as its JSON text. */
  function PrintCommand(cmd: Command, text: string): string {
    match cmd
    case RoomCreate => "ROOM.CREATE"
    case RoomDelete(id) => "ROOM.DELETE " + IdThen(id, [])
    case RoomList => "ROOM.LIST"
    case RoomInfo(id) => "ROOM.INFO " + IdThen(id, [])
    case Set(id, c, k, _) => "SET " + IdThen(id, NamesThen(c, k, [' '] + text))
    case Del(id, c, k) => "DEL " + IdThen(id, NamesThen(c, k, []))
    case Get(id, c, k) => "GET " + IdThen(id, NamesThen(c, k, []))
    case Version(id) => "VERSION " + IdThen(id, [])
    case SetJwtKey(key) => "SET.JWTKEY " + QuotedLine(key)
    case TxBegin(id) => "TX.BEGIN " + IdThen(id, [])
    case TxEnd(id) => "TX.END " + IdThen(id, [])
    case TxAbort(id) => "TX.ABORT " + IdThen(id, [])
    case TokenGen(id, containers) => "TOKEN.GEN " + IdThen(id, PrintOnLine(containers))
  }

  /** The verb of a command, and its arguments as they are printed. */
  function VerbFor(cmd: Command): Verb {
    match cmd
    case RoomCreate => VRoomCreate
    case RoomDelete(_) => VRoomDelete
    case RoomList => VRoomList
    case RoomInfo(_) => VRoomInfo
    case Set(_, _, _, _) => VSet
    case Del(_, _, _) => VDel
    case Get(_, _, _) => VGet
    case Version(_) => VVersion
    case SetJwtKey(_) => VSetJwtKey
    case TxBegin(_) => VTxBegin
    case TxEnd(_) => VTxEnd
    case TxAbort(_) => VTxAbort
    case TokenGen(_, _) => VTokenGen
  }

  function ArgsFor(cmd: Command, text: string): string {
    match cmd
    case RoomCreate => []
    case RoomList => []
    case Set(id, c, k, _) => IdThen(id, NamesThen(c, k, [' '] + text))
    case Del(id, c, k) => IdThen(id, NamesThen(c, k, []))
    case Get(id, c, k) => IdThen(id, NamesThen(c, k, []))
    case SetJwtKey(key) => QuotedLine(key)
    case TokenGen(id, containers) => IdThen(id, PrintOnLine(containers))
    case RoomDelete(id) => IdThen(id, [])
    case RoomInfo(id) => IdThen(id, [])
    case Version(id) => IdThen(id, [])
    case TxBegin(id) => IdThen(id, [])
    case TxEnd(id) => IdThen(id, [])
    case TxAbort(id) => IdThen(id, [])
  }

  lemma VerbSpace(verb: Verb)
    ensures verb.Text() + [' ']
         == match verb
            case VRoomCreate => "ROOM.CREATE "
            case VRoomDelete => "ROOM.DELETE "
            case VRoomList => "ROOM.LIST "
            case VRoomInfo => "ROOM.INFO "
            case VSet => "SET "
            case VDel => "DEL "
            case VGet => "GET "
            case VVersion => "VERSION "
            case VSetJwtKey => "SET.JWTKEY "
            case VTxBegin => "TX.BEGIN "
            case VTxEnd => "TX.END "
            case VTxAbort => "TX.ABORT "
            case VTokenGen => "TOKEN.GEN "
  {
  }

  lemma PrintedLine(cmd: Command, text: string)
    ensures PrintCommand(cmd, text)
         == if cmd.RoomCreate? || cmd.RoomList? then VerbFor(cmd).Text() else Line(VerbFor(cmd), ArgsFor(cmd, text))
  {
    VerbSpace(VerbFor(cmd));
  }

  predicate ShortNames(c: string, k: string) {
    ByteLength(c) <= MAX_NAME_BYTES && ByteLength(k) <= MAX_NAME_BYTES
  }

  /** What the protocol can carry: a 64-bit room id, and names of at most 256 bytes. */
  predicate Printable(cmd: Command) {
    match cmd
    case RoomCreate => true
    case RoomList => true
    case SetJwtKey(_) => true
    case Set(id, c, k, _) => id < Decimal.U64_LIMIT && ShortNames(c, k)
    case Del(id, c, k) => id < Decimal.U64_LIMIT && ShortNames(c, k)
    case Get(id, c, k) => id < Decimal.U64_LIMIT && ShortNames(c, k)
    case RoomDelete(id) => id < Decimal.U64_LIMIT
    case RoomInfo(id) => id < Decimal.U64_LIMIT
    case Version(id) => id < Decimal.U64_LIMIT
    case TxBegin(id) => id < Decimal.U64_LIMIT
    case TxEnd(id) => id < Decimal.U64_LIMIT
    case TxAbort(id) => id < Decimal.U64_LIMIT
    case TokenGen(id, _) => id < Decimal.U64_LIMIT
  }

  lemma DecimalIsBare(n: nat)
    ensures Bare(Decimal.Print(n))
  {
    forall i | 0 <= i < |Decimal.Print(n)|
      ensures !IsWhitespace(Decimal.Print(n)[i])
    {
      assert Decimal.IsDigit(Decimal.Print(n)[i]);
    }
    assert Decimal.IsDigit(Decimal.Print(n)[0]);
  }

  lemma ReadFirst(text: string, args: string)
    requires Bare(text)
    ensures TakeToken(text) == Ok((text, []))
    ensures TakeToken(text + [' '] + args) == Ok((text, [' '] + args))
  {
    BareRoundTrip([], text, []);
    BareRoundTrip([], text, [' '] + args);
    assert [] + text + [] == text;
    assert [] + text + ([' '] + args) == text + [' '] + args;
  }

  /** The first token selects the arm, and the rest goes to it. */
  lemma ReadVerb(verb: Verb, args: string, json: JsonParser)
    ensures Parse(Line(verb, args), json) == ArgumentsOf(verb, [' '] + args, json)
    ensures Parse(verb.Text(), json) == ArgumentsOf(verb, [], json)
    ensures TakeToken(Line(verb, args)) == Ok((verb.Text(), [' '] + args))
  {
    VerbOfText(verb);
    ReadFirst(verb.Text(), args);
  }

  lemma ReadRoomId(id: nat, rest: string)
    requires rest == [] || IsWhitespace(rest[0])
    ensures RoomIdOf([' '] + IdThen(id, rest))
         == if id < Decimal.U64_LIMIT then Ok((id, rest)) else Err("ERROR invalid_room_id")
  {
    DecimalIsBare(id);
    BareRoundTrip([' '], Decimal.Print(id), rest);
    Decimal.ParseOfPrint(id);
    assert [' '] + IdThen(id, rest) == [' '] + Decimal.Print(id) + rest;
  }

  lemma ReadNames(id: nat, c: string, k: string, rest: string)
    requires id < Decimal.U64_LIMIT
    ensures KeyedOf([' '] + IdThen(id, NamesThen(c, k, rest)))
         == if ByteLength(c) > MAX_NAME_BYTES then Err("ERROR container_name_too_long")
            else if ByteLength(k) > MAX_NAME_BYTES then Err("ERROR key_too_long")
            else Ok((id, c, k, rest))
  {
    ReadRoomId(id, NamesThen(c, k, rest));
    QuotedRoundTrip([' '], c, [' '] + QuotedLine(k) + rest);
    QuotedRoundTrip([' '], k, rest);
  }

  lemma ReadSet(id: nat, c: string, k: string, text: string, json: JsonParser)
    requires id < Decimal.U64_LIMIT && ShortNames(c, k)
    requires text != [] && !IsWhitespace(text[0])
    ensures SetOf([' '] + IdThen(id, NamesThen(c, k, [' '] + text)), json)
         == if json(text).Err? then Err("ERROR invalid_json " + json(text).error)
            else Ok(Set(id, c, k, json(text).value))
  {
    ReadNames(id, c, k, [' '] + text);
    SkipSpace([' '], text);
  }

  lemma ReadDel(id: nat, c: string, k: string)
    requires id < Decimal.U64_LIMIT && ShortNames(c, k)
    ensures OnlyKeyed([' '] + IdThen(id, NamesThen(c, k, []))) == Ok((id, c, k))
  {
    ReadNames(id, c, k, []);
  }

  lemma ReadOnlyId(verb: Verb, id: nat, json: JsonParser)
    requires id < Decimal.U64_LIMIT
    ensures Parse(Line(verb, IdThen(id, [])), json) == ArgumentsOf(verb, [' '] + IdThen(id, []), json)
    ensures OnlyRoomId([' '] + IdThen(id, [])) == Ok(id)
  {
    ReadVerb(verb, IdThen(id, []), json);
    ReadRoomId(id, []);
  }

  lemma SetLine(id: nat, c: string, k: string, text: string, json: JsonParser)
    requires id < Decimal.U64_LIMIT && ShortNames(c, k)
    requires text != [] && !IsWhitespace(text[0]) && json(text).Ok?
    ensures Parse(Line(VSet, IdThen(id, NamesThen(c, k, [' '] + text))), json) == Ok(Set(id, c, k, json(text).value))
  {
    ReadVerb(VSet, IdThen(id, NamesThen(c, k, [' '] + text)), json);
    ReadSet(id, c, k, text, json);
  }

  lemma ReadKeyedVerb(verb: Verb, id: nat, c: string, k: string, json: JsonParser)
    requires id < Decimal.U64_LIMIT && ShortNames(c, k)
    ensures var args := IdThen(id, NamesThen(c, k, []));
      && Parse(Line(verb, args), json) == ArgumentsOf(verb, [' '] + args, json)
      && OnlyKeyed([' '] + args) == Ok((id, c, k))
  {
    ReadVerb(verb, IdThen(id, NamesThen(c, k, [])), json);
    ReadDel(id, c, k);
  }

  /** DEL and GET. */
  lemma NamesLine(verb: Verb, id: nat, c: string, k: string, json: JsonParser)
    requires (verb.VDel? || verb.VGet?) && id < Decimal.U64_LIMIT && ShortNames(c, k)
    ensures Parse(Line(verb, IdThen(id, NamesThen(c, k, []))), json)
         == Ok(if verb.VDel? then Del(id, c, k) else Get(id, c, k))
  {
    ReadKeyedVerb(verb, id, c, k, json);
  }

  /** The command of a verb that takes a room id and nothing else. */
  function IdCommand(verb: Verb, id: nat): Option<Command> {
    match verb
    case VRoomDelete => Some(RoomDelete(id))
    case VRoomInfo => Some(RoomInfo(id))
    case VVersion => Some(Version(id))
    case VTxBegin => Some(TxBegin(id))
    case VTxEnd => Some(TxEnd(id))
    case VTxAbort => Some(TxAbort(id))
    case _ => None
  }

  lemma IdLine(verb: Verb, id: nat, json: JsonParser)
    requires IdCommand(verb, id).Some? && id < Decimal.U64_LIMIT
    ensures Parse(Line(verb, IdThen(id, [])), json) == Ok(IdCommand(verb, id).value)
  {
    ReadOnlyId(verb, id, json);
  }

  lemma KeyLine(key: string, json: JsonParser)
    ensures Parse(Line(VSetJwtKey, QuotedLine(key)), json) == Ok(SetJwtKey(key))
  {
    ReadVerb(VSetJwtKey, QuotedLine(key), json);
    QuotedRoundTrip([' '], key, []);
    assert [' '] + QuotedLine(key) + [] == [' '] + QuotedLine(key);
  }

  lemma TokenLine(id: nat, containers: seq<string>, json: JsonParser)
    requires id < Decimal.U64_LIMIT
    ensures Parse(Line(VTokenGen, IdThen(id, PrintOnLine(containers))), json) == Ok(TokenGen(id, containers))
  {
    ReadTokenVerb(IdThen(id, PrintOnLine(containers)), json);
    ReadTokenLine(id, containers);
  }

  lemma ReadTokenVerb(args: string, json: JsonParser)
    ensures Parse(Line(VTokenGen, args), json) == TokenGenOf([' '] + args)
  {
    ReadVerb(VTokenGen, args, json);
  }

  lemma ReadTokenLine(id: nat, containers: seq<string>)
    requires id < Decimal.U64_LIMIT
    ensures TokenGenOf([' '] + IdThen(id, PrintOnLine(containers))) == Ok(TokenGen(id, containers))
  {
    ReadRoomId(id, PrintOnLine(containers));
    QuotedListRoundTrip(containers);
  }

  /** Every command the protocol can carry is recovered from its line, whatever its names contain. */
  lemma CommandRoundTrip(cmd: Command, text: string, json: JsonParser)
    requires Printable(cmd)
    requires cmd.Set? ==> text != [] && !IsWhitespace(text[0]) && json(text) == Ok(cmd.value)
    ensures Parse(PrintCommand(cmd, text), json) == Ok(cmd)
    ensures (cmd.Set? ==> IsOneLine(text)) ==> IsOneLine(PrintCommand(cmd, text))
  {
    ReadPrinted(cmd, text, json);
    if cmd.Set? ==> IsOneLine(text) {
      PrintedIsOneLine(cmd, text);
    }
  }

  lemma ReadPrinted(cmd: Command, text: string, json: JsonParser)
    requires Printable(cmd)
    requires cmd.Set? ==> text != [] && !IsWhitespace(text[0]) && json(text) == Ok(cmd.value)
    ensures Parse(PrintCommand(cmd, text), json) == Ok(cmd)
  {
    PrintedLine(cmd, text);
    match cmd
    case RoomCreate => ReadVerb(VRoomCreate, [], json);
    case RoomList => ReadVerb(VRoomList, [], json);
    case Set(id, c, k, v) => SetLine(id, c, k, text, json);
    case Del(id, c, k) => NamesLine(VDel, id, c, k, json);
    case Get(id, c, k) => NamesLine(VGet, id, c, k, json);
    case SetJwtKey(key) => KeyLine(key, json);
    case TokenGen(id, containers) => TokenLine(id, containers, json);
    case _ => ReadIdPrinted(cmd, text, json);
  }

  lemma ReadIdPrinted(cmd: Command, text: string, json: JsonParser)
    requires Printable(cmd)
    requires cmd.RoomDelete? || cmd.RoomInfo? || cmd.Version? || cmd.TxBegin? || cmd.TxEnd? || cmd.TxAbort?
    ensures Parse(PrintCommand(cmd, text), json) == Ok(cmd)
  {
    PrintedLine(cmd, text);
    match cmd
    case RoomDelete(id) => IdLine(VRoomDelete, id, json);
    case RoomInfo(id) => IdLine(VRoomInfo, id, json);
    case Version(id) => IdLine(VVersion, id, json);
    case TxBegin(id) => IdLine(VTxBegin, id, json);
    case TxEnd(id) => IdLine(VTxEnd, id, json);
    case TxAbort(id) => IdLine(VTxAbort, id, json);
  }

  /** A verb followed by arguments without a line break, the last of them not a space, is one line. */
  lemma LineIsOneLine(verb: Verb, args: string)
    requires args != [] && '\n' !in args && !IsWhitespace(args[|args| - 1])
    ensures IsOneLine(Line(verb, args)) && IsOneLine(verb.Text())
  {
    VerbOfText(verb);
    assert IsWhitespace('\n');
    var line := Line(verb, args);
    assert line[0] == verb.Text()[0] && line[|line| - 1] == args[|args| - 1];
  }

  lemma ArgumentsAreOneLine(id: nat, rest: string)
    requires '\n' !in rest && (rest != [] ==> !IsWhitespace(rest[|rest| - 1]))
    ensures var args := IdThen(id, rest); args != [] && '\n' !in args && !IsWhitespace(args[|args| - 1])
  {
    DecimalIsBare(id);
    assert IsWhitespace('\n');
    var args := IdThen(id, rest);
    if rest != [] {
      assert args[|args| - 1] == rest[|rest| - 1];
    } else {
      assert args == Decimal.Print(id);
    }
  }

  lemma NamesAreOneLine(c: string, k: string, rest: string)
    requires '\n' !in rest && (rest != [] ==> !IsWhitespace(rest[|rest| - 1]))
    ensures var args := NamesThen(c, k, rest); args != [] && '\n' !in args && !IsWhitespace(args[|args| - 1])
  {
    StaysOnLine(c);
    StaysOnLine(k);
    var args := NamesThen(c, k, rest);
    assert args[|args| - 1] == if rest == [] then QUOTE else rest[|rest| - 1];
  }

  lemma PrintedIsOneLine(cmd: Command, text: string)
    requires cmd.Set? ==> IsOneLine(text)
    ensures IsOneLine(PrintCommand(cmd, text))
  {
    PrintedLine(cmd, text);
    match cmd
    case RoomCreate => LineIsOneLine(VRoomCreate, ['0']);
    case RoomList => LineIsOneLine(VRoomList, ['0']);
    case Set(id, c, k, _) => KeyedIsOneLine(VSet, id, c, k, [' '] + text);
    case Del(id, c, k) => KeyedIsOneLine(VDel, id, c, k, []);
    case Get(id, c, k) => KeyedIsOneLine(VGet, id, c, k, []);
    case SetJwtKey(key) => KeyIsOneLine(key);
    case TokenGen(id, containers) => TokenIsOneLine(id, containers);
    case _ => IdPrintedIsOneLine(cmd, text);
  }

  lemma IdPrintedIsOneLine(cmd: Command, text: string)
    requires cmd.RoomDelete? || cmd.RoomInfo? || cmd.Version? || cmd.TxBegin? || cmd.TxEnd? || cmd.TxAbort?
    ensures IsOneLine(PrintCommand(cmd, text))
  {
    PrintedLine(cmd, text);
    match cmd
    case RoomDelete(id) => IdIsOneLine(VRoomDelete, id, []);
    case RoomInfo(id) => IdIsOneLine(VRoomInfo, id, []);
    case Version(id) => IdIsOneLine(VVersion, id, []);
    case TxBegin(id) => IdIsOneLine(VTxBegin, id, []);
    case TxEnd(id) => IdIsOneLine(VTxEnd, id, []);
    case TxAbort(id) => IdIsOneLine(VTxAbort, id, []);
  }

  lemma KeyIsOneLine(key: string)
    ensures IsOneLine(Line(VSetJwtKey, QuotedLine(key)))
  {
    StaysOnLine(key);
    LineIsOneLine(VSetJwtKey, QuotedLine(key));
  }

  lemma TokenIsOneLine(id: nat, containers: seq<string>)
    ensures IsOneLine(Line(VTokenGen, IdThen(id, PrintOnLine(containers))))
  {
    NamesStayOnLine(containers);
    IdIsOneLine(VTokenGen, id, PrintOnLine(containers));
  }

  lemma IdIsOneLine(verb: Verb, id: nat, rest: string)
    requires '\n' !in rest && (rest != [] ==> !IsWhitespace(rest[|rest| - 1]))
    ensures IsOneLine(Line(verb, IdThen(id, rest)))
  {
    ArgumentsAreOneLine(id, rest);
    LineIsOneLine(verb, IdThen(id, rest));
  }

  lemma KeyedIsOneLine(verb: Verb, id: nat, c: string, k: string, rest: string)
    requires '\n' !in rest && (rest != [] ==> !IsWhitespace(rest[|rest| - 1]))
    ensures IsOneLine(Line(verb, IdThen(id, NamesThen(c, k, rest))))
  {
    NamesAreOneLine(c, k, rest);
    IdIsOneLine(verb, id, NamesThen(c, k, rest));
  }

  /** The command-line tool's TOKEN.GEN line is understood exactly when every container name is bare. */
  lemma TokenGenLine(id: nat, containers: seq<string>, json: JsonParser)
    requires id < Decimal.U64_LIMIT && containers != []
    ensures Parse("TOKEN.GEN " + IdThen(id, " " + Join(containers)), json) == Ok(TokenGen(id, containers))
       <==> forall i | 0 <= i < |containers| :: Bare(containers[i])
  {
    VerbSpace(VTokenGen);
    TokenGenTokens(id, containers, json);
    JoinRecoveredIff(containers);
  }

  lemma TokenGenTokens(id: nat, containers: seq<string>, json: JsonParser)
    requires id < Decimal.U64_LIMIT
    ensures var toks := Tokens(Join(containers));
      Parse(Line(VTokenGen, IdThen(id, [' '] + Join(containers))), json)
      == if toks.Err? then Err(toks.error) else Ok(TokenGen(id, toks.value))
  {
    ReadTokenVerb(IdThen(id, [' '] + Join(containers)), json);
    ReadTokenGen(id, containers);
  }

  lemma ReadTokenGen(id: nat, containers: seq<string>)
    requires id < Decimal.U64_LIMIT
    ensures var toks := Tokens(Join(containers));
      TokenGenOf([' '] + IdThen(id, [' '] + Join(containers)))
      == if toks.Err? then Err(toks.error) else Ok(TokenGen(id, toks.value))
  {
    ReadRoomId(id, [' '] + Join(containers));
    LeadingSpace(Join(containers));
  }

  // ---------------------------------------------------------------- hub cleanup on deletion

  /** The second whitespace-separated part of a line, empty when there is none. */
  function SecondPart(line: string): string {
    var first := TrimStart(line);
    Word(TrimStart(first[|Word(first)|..]))
  }

  predicate StartsWith(s: string, prefix: string) {
    |prefix| <= |s| && s[..|prefix|] == prefix
  }

  const DELETE_VERB := "ROOM.DELETE"

  /** The room whose clients the connection loop removes after a line that was answered with a plain OK. */
  function CleanupOf(line: string): Option<nat> {
    if StartsWith(line, DELETE_VERB) then Decimal.ParseU64(SecondPart(line)) else None
  }

  lemma {:induction false} WordPrefix(s: string, rest: string)
    requires forall i | 0 <= i < |s| :: !IsWhitespace(s[i])
    ensures StartsWith(Word(s + rest), s)
  {
    if s != [] {
      assert (s + rest)[1..] == s[1..] + rest;
      WordPrefix(s[1..], rest);
      assert Word(s + rest) == [s[0]] + Word(s[1..] + rest);
      assert Word(s + rest)[..|s|] == [s[0]] + Word(s[1..] + rest)[..|s| - 1];
    }
  }

  /** A line that starts with the verb is read as an unquoted word that starts with it. */
  lemma PlainVerb(line: string)
    requires StartsWith(line, DELETE_VERB)
    ensures TakeToken(line) == Ok((Word(line), line[|Word(line)|..])) && TrimStart(line) == line
    ensures StartsWith(Word(line), DELETE_VERB)
  {
    VerbOfText(VRoomDelete);
    assert line == DELETE_VERB + line[|DELETE_VERB|..];
    assert line[0] == DELETE_VERB[0];
    WordPrefix(DELETE_VERB, line[|DELETE_VERB|..]);
  }

  lemma VerbOfInverse(tok: string)
    requires VerbOf(tok).Some?
    ensures tok == VerbOf(tok).value.Text()
  {
  }

  lemma DeletionParts(line: string, json: JsonParser, id: nat)
    requires Parse(line, json) == Ok(RoomDelete(id))
    ensures TakeToken(line).Ok? && TakeToken(line).value.0 == DELETE_VERB
    ensures OnlyRoomId(TakeToken(line).value.1) == Ok(id)
  {
    var tok := TakeToken(line).value.0;
    assert VerbOf(tok).value == VRoomDelete;
    VerbOfInverse(tok);
  }

  /**
    After a successful deletion the hub is cleaned, and of exactly that room, if and only if
    neither the verb nor the room id was written in quotes.
   */
  lemma DeletionIsCleanedIff(line: string, json: JsonParser, id: nat)
    requires Parse(line, json) == Ok(RoomDelete(id)) && TrimStart(line) == line
    ensures TakeToken(line).Ok? && TrimStart(TakeToken(line).value.1) != []
    ensures CleanupOf(line)
         == if line[0] != QUOTE && TrimStart(TakeToken(line).value.1)[0] != QUOTE then Some(id) else None
  {
    DeletionParts(line, json, id);
    var rest := TakeToken(line).value.1;
    var arg := TrimStart(rest);
    assert TakeToken(rest).Ok? && arg != [];
    VerbOfText(VRoomDelete);
    if line[0] == QUOTE {
      assert DELETE_VERB[0] != QUOTE;
    } else {
      assert DELETE_VERB == Word(line) && rest == line[|Word(line)|..];
      assert SecondPart(line) == Word(arg);
      if arg[0] == QUOTE {
        QuotedIsNoNumber(arg);
      }
    }
  }

  lemma QuotedIsNoNumber(arg: string)
    requires arg != [] && arg[0] == QUOTE
    ensures Decimal.ParseU64(Word(arg)).None?
  {
    var w := Word(arg);
    assert w[0] == QUOTE;
    NoDigits(w);
  }

  lemma {:induction false} NoDigits(s: string)
    requires s != [] && !Decimal.IsDigit(s[0])
    ensures Decimal.Digits(s).None?
  {
    if |s| > 1 {
      NoDigits(s[..|s| - 1]);
    }
  }

  /** Lines of other commands never clean a room. */
  lemma OnlyDeletionCleans(line: string, json: JsonParser)
    requires Parse(line, json).Ok? && CleanupOf(line).Some?
    ensures Parse(line, json).value.RoomDelete?
  {
    PlainVerb(line);
    VerbOfInverse(Word(line));
    LongVerbs(VerbOf(Word(line)).value);
  }

  lemma LongVerbs(verb: Verb)
    requires StartsWith(verb.Text(), DELETE_VERB)
    ensures verb == VRoomDelete
  {
    assert verb.Text()[..|DELETE_VERB|][5] == 'D';
  }

  /** Deleting with a quoted id is accepted, but leaves the room's clients in the hub. */
  lemma QuotedDeletionIsNotCleaned(json: JsonParser, id: nat)
    requires id < Decimal.U64_LIMIT
    ensures var line := "ROOM.DELETE " + Quoted(Decimal.Print(id));
      Parse(line, json) == Ok(RoomDelete(id)) && CleanupOf(line) == None
  {
    var arg := Quoted(Decimal.Print(id));
    VerbSpace(VRoomDelete);
    ReadQuotedId(id, json);
    assert Line(VRoomDelete, arg)[0] == DELETE_VERB[0];
    SkipSpace([' '], arg);
    DeletionIsCleanedIff(Line(VRoomDelete, arg), json, id);
  }

  lemma ReadQuotedId(id: nat, json: JsonParser)
    requires id < Decimal.U64_LIMIT
    ensures var arg := Quoted(Decimal.Print(id));
      && Parse(Line(VRoomDelete, arg), json) == Ok(RoomDelete(id))
      && TakeToken(Line(VRoomDelete, arg)) == Ok((DELETE_VERB, [' '] + arg))
  {
    var arg := Quoted(Decimal.Print(id));
    ReadVerb(VRoomDelete, arg, json);
    QuotedRoundTrip([' '], Decimal.Print(id), []);
    assert [' '] + arg + [] == [' '] + arg;
    Decimal.ParseOfPrint(id);
  }

  // ---------------------------------------------------------------- execution

  datatype Response =
    | Error(message: string)
    | Plain
    | WithRoomId(id: nat)
    | WithRooms(ids: seq<nat>)
    | WithInfo(info: RoomModel.RoomInfo)
    | WithFragment(value: Value, version: nat)
    | WithVersion(version: nat)
    | FromTokenCode

  function ErrorText(e: StateError): string {
    match e
    case RoomNotFound => "ERROR room_not_found"
    case ContainerNotFound => "ERROR container_not_found"
    case FragmentNotFound => "ERROR not_found"
    case FragmentTombstone => "ERROR tombstone"
    case TxNotOpen => "ERROR tx_not_open"
    case TxAlreadyOpen => "ERROR tx_already_open"
  }

  function ReplyText(reply: Reply): Response {
    match reply
    case Created(id) => WithRoomId(id)
    case Done => Plain
    case Failed(e) => Error(ErrorText(e))
  }

  /** The state change that a command asks for, if any. */
  function OpOf(cmd: Command): Option<AppOp> {
    match cmd
    case RoomCreate => Some(CreateRoom)
    case RoomDelete(id) => Some(DeleteRoom(id))
    case Set(id, c, k, v) => Some(OnRoom(id, RoomModel.Set(c, k, v)))
    case Del(id, c, k) => Some(OnRoom(id, RoomModel.Del(c, k)))
    case TxBegin(id) => Some(OnRoom(id, RoomModel.Begin))
    case TxEnd(id) => Some(OnRoom(id, RoomModel.End))
    case TxAbort(id) => Some(OnRoom(id, RoomModel.Abort))
    case _ => None
  }

  /** The updates that an operation emits. */
  ghost function UpdatesFor(app: App, op: AppOp): seq<RoomUpdate> {
    if op.OnRoom? && op.id in app.rooms then Mirror.UpdatesOf(op.id, app.rooms[op.id], op.op) else []
  }

  /** What a command that changes nothing answers. */
  ghost predicate Answers(app: App, cmd: Command, resp: Response) {
    match cmd
    case Get(id, c, k) =>
      if id !in app.rooms then resp == Error(ErrorText(RoomNotFound))
      else
        var res := RoomModel.Fragment(app.rooms[id], c, k);
        resp == if res.Ok? then WithFragment(res.value.0, res.value.1) else Error(ErrorText(res.error))
    case Version(id) =>
      resp == if id !in app.rooms then Error(ErrorText(RoomNotFound)) else WithVersion(RoomModel.Counter(app.rooms[id]))
    case RoomInfo(id) =>
      resp == if id !in app.rooms then Error(ErrorText(RoomNotFound)) else WithInfo(RoomModel.InfoOf(id, app.rooms[id]))
    case RoomList =>
      resp.WithRooms? && Ascending(resp.ids) && forall id :: id in resp.ids <==> id in app.rooms
    case _ => resp == FromTokenCode
  }

  method Write(id: nat, op: RoomModel.RoomOp, app: AppState) returns (res: Result<(), StateError>)
    requires app.Valid()
    modifies app.Footprint(id)
    ensures app.Valid()
    ensures (app.Model(), AsReply(res)) == Perform(old(app.Model()), OnRoom(id, op))
  {
    match op {
      case Set(c, k, v) => res := app.SetFragment(id, c, k, v);
      case Del(c, k) => res := app.DelFragment(id, c, k);
      case Begin => res := app.TxBegin(id);
      case End => res := app.TxEnd(id);
      case Abort => res := app.TxAbort(id);
    }
  }

  /** The arms that write into a room: SET, DEL and the transaction commands. */
  method ExecuteOnRoom(id: nat, op: RoomModel.RoomOp, app: AppState) returns (resp: Response, updates: seq<RoomUpdate>)
    requires app.Valid()
    modifies app.Footprint(id)
    ensures app.Valid()
    ensures app.Model() == Perform(old(app.Model()), OnRoom(id, op)).0
    ensures resp == ReplyText(Perform(old(app.Model()), OnRoom(id, op)).1)
    ensures updates == UpdatesFor(old(app.Model()), OnRoom(id, op))
  {
    ghost var before := app.Model();
    var res := Write(id, op, app);
    EmittedIs(before, id, op);
    if res.Err? {
      return Error(ErrorText(res.error)), [];
    }
    var version := app.RoomVersion(id);
    var counter := if version.Ok? then version.value else 0;
    resp := Plain;
    updates := UpdateList(id, op, counter);
  }

  /** The updates handed on after an operation that succeeded. */
  function UpdateList(id: nat, op: RoomModel.RoomOp, counter: nat): seq<RoomUpdate> {
    match op
    case Set(c, k, v) => [RoomUpdate(id, c, k, Some(v), counter)]
    case Del(c, k) => [RoomUpdate(id, c, k, Some(Null), counter)]
    case End => [RoomUpdate(id, STAR, STAR, None, counter)]
    case _ => []
  }

  lemma EmittedIs(app: App, id: nat, op: RoomModel.RoomOp)
    ensures var (next, reply) := Perform(app, OnRoom(id, op));
      UpdatesFor(app, OnRoom(id, op))
      == if reply.Done? && id in next.rooms then UpdateList(id, op, RoomModel.Counter(next.rooms[id])) else []
    ensures Perform(app, OnRoom(id, op)).1.Done? ==> id in Perform(app, OnRoom(id, op)).0.rooms
  {
  }

  /** The arms that change nothing. */
  method Answer(cmd: Command, app: AppState) returns (resp: Response)
    requires app.Valid() && OpOf(cmd).None?
    ensures Answers(app.Model(), cmd, resp)
  {
    match cmd {
      case RoomList =>
        var ids := app.ListRooms();
        resp := WithRooms(ids);
      case RoomInfo(id) =>
        var res := app.GetInfo(id);
        resp := if res.Ok? then WithInfo(res.value) else Error(ErrorText(res.error));
      case Get(id, c, k) =>
        var res := app.GetFragment(id, c, k);
        resp := if res.Ok? then WithFragment(res.value.0, res.value.1) else Error(ErrorText(res.error));
      case Version(id) =>
        var res := app.RoomVersion(id);
        resp := if res.Ok? then WithVersion(res.value) else Error(ErrorText(res.error));
      case SetJwtKey(_) => resp := FromTokenCode;
      case TokenGen(_, _) => resp := FromTokenCode;
    }
  }

  /** The arms that change the rooms. */
  method Execute(op: AppOp, app: AppState) returns (resp: Response, updates: seq<RoomUpdate>)
    requires app.Valid()
    modifies app, app.rooms.Values
    ensures app.Valid()
    ensures app.Model() == Perform(old(app.Model()), op).0
    ensures resp == ReplyText(Perform(old(app.Model()), op).1)
    ensures updates == UpdatesFor(old(app.Model()), op)
  {
    updates := [];
    match op {
      case CreateRoom =>
        var id := app.CreateRoom();
        resp := WithRoomId(id);
      case DeleteRoom(id) =>
        var res := app.DeleteRoom(id);
        resp := if res.Ok? then Plain else Error(ErrorText(res.error));
      case OnRoom(id, roomOp) =>
        resp, updates := ExecuteOnRoom(id, roomOp, app);
    }
  }

  /** The rooms after a line: changed only by a line that parses to a state-changing command. */
  ghost function AppAfter(app: App, parsed: Parsed<Command>): App {
    if parsed.Ok? && OpOf(parsed.value).Some? then Perform(app, OpOf(parsed.value).value).0 else app
  }

  /** The response and the updates of a line. */
  ghost predicate Processed(app: App, parsed: Parsed<Command>, resp: Response, updates: seq<RoomUpdate>) {
    if parsed.Err? then resp == Error(parsed.error) && updates == []
    else if OpOf(parsed.value).Some? then
      var op := OpOf(parsed.value).value;
      resp == ReplyText(Perform(app, op).1) && updates == UpdatesFor(app, op)
    else updates == [] && Answers(app, parsed.value, resp)
  }

  // ---------------------------------------------------------------- reading a line

  method ReadRoomIdToken(rest: string) returns (res: Parsed<(nat, string)>)
    ensures res == RoomIdOf(rest)
  {
    var token := NextToken(rest);
    match token {
      case Err(e) => res := Err(e);
      case Ok((tok, rem)) =>
        var id := Decimal.ParseU64(tok);
        res := if id.None? then Err("ERROR invalid_room_id") else Ok((id.value, rem));
    }
  }

  method ReadOnlyRoomId(rest: string) returns (res: Parsed<nat>)
    ensures res == OnlyRoomId(rest)
  {
    var first := ReadRoomIdToken(rest);
    if first.Err? {
      return Err(first.error);
    }
    var rem := SkipWhitespace(first.value.1);
    res := if rem != [] then Err("ERROR extra_arguments") else Ok(first.value.0);
  }

  method ReadKeyed(rest: string) returns (res: Parsed<(nat, string, string, string)>)
    ensures res == KeyedOf(rest)
  {
    var first := ReadRoomIdToken(rest);
    if first.Err? {
      return Err(first.error);
    }
    var container := NextToken(first.value.1);
    if container.Err? {
      return Err(container.error);
    }
    if ByteLength(container.value.0) > MAX_NAME_BYTES {
      return Err("ERROR container_name_too_long");
    }
    var key := NextToken(container.value.1);
    if key.Err? {
      return Err(key.error);
    }
    if ByteLength(key.value.0) > MAX_NAME_BYTES {
      return Err("ERROR key_too_long");
    }
    res := Ok((first.value.0, container.value.0, key.value.0, key.value.1));
  }

  method ReadOnlyKeyed(rest: string) returns (res: Parsed<(nat, string, string)>)
    ensures res == OnlyKeyed(rest)
  {
    var keyed := ReadKeyed(rest);
    if keyed.Err? {
      return Err(keyed.error);
    }
    var (id, container, key, rem) := keyed.value;
    rem := SkipWhitespace(rem);
    res := if rem != [] then Err("ERROR extra_arguments") else Ok((id, container, key));
  }

  method ReadSetCommand(rest: string, json: JsonParser) returns (res: Parsed<Command>)
    ensures res == SetOf(rest, json)
  {
    var keyed := ReadKeyed(rest);
    if keyed.Err? {
      return Err(keyed.error);
    }
    var (id, container, key, rem) := keyed.value;
    var text := SkipWhitespace(rem);
    if text == [] {
      return Err("ERROR missing_value");
    }
    var value := json(text);
    res := if value.Err? then Err("ERROR invalid_json " + value.error) else Ok(Set(id, container, key, value.value));
  }

  method ReadTokenGenCommand(rest: string) returns (res: Parsed<Command>)
    ensures res == TokenGenOf(rest)
  {
    var first := ReadRoomIdToken(rest);
    if first.Err? {
      return Err(first.error);
    }
    var containers := AllTokens(first.value.1);
    res := if containers.Err? then Err(containers.error) else Ok(TokenGen(first.value.0, containers.value));
  }

  method ReadJwtKeyCommand(rest: string) returns (res: Parsed<Command>)
    ensures res == JwtKeyOf(rest)
  {
    var key := NextToken(rest);
    if key.Err? {
      return Err(key.error);
    }
    res := ReadNothing(SetJwtKey(key.value.0), key.value.1);
  }

  method ReadNothing(cmd: Command, rest: string) returns (res: Parsed<Command>)
    ensures res == WithNothing(cmd, rest)
  {
    var rem := SkipWhitespace(rest);
    res := if rem != [] then Err("ERROR extra_arguments") else Ok(cmd);
  }

  method ReadWithId(make: nat -> Command, rest: string) returns (res: Parsed<Command>)
    ensures res == WithId(make, rest)
  {
    var id := ReadOnlyRoomId(rest);
    res := if id.Err? then Err(id.error) else Ok(make(id.value));
  }

  method ReadWithKey(make: (nat, string, string) -> Command, rest: string) returns (res: Parsed<Command>)
    ensures res == WithKey(make, rest)
  {
    var keyed := ReadOnlyKeyed(rest);
    res := if keyed.Err? then Err(keyed.error) else Ok(make(keyed.value.0, keyed.value.1, keyed.value.2));
  }

  method ReadArguments(verb: Verb, rest: string, json: JsonParser) returns (res: Parsed<Command>)
    ensures res == ArgumentsOf(verb, rest, json)
  {
    match verb {
      case VRoomCreate => res := ReadNothing(RoomCreate, rest);
      case VRoomDelete => res := ReadWithId((id: nat) => RoomDelete(id), rest);
      case VRoomList => res := ReadNothing(RoomList, rest);
      case VRoomInfo => res := ReadWithId((id: nat) => RoomInfo(id), rest);
      case VSet => res := ReadSetCommand(rest, json);
      case VDel => res := ReadWithKey((id: nat, c: string, k: string) => Del(id, c, k), rest);
      case VGet => res := ReadWithKey((id: nat, c: string, k: string) => Get(id, c, k), rest);
      case VVersion => res := ReadWithId((id: nat) => Version(id), rest);
      case VSetJwtKey => res := ReadJwtKeyCommand(rest);
      case VTxBegin => res := ReadWithId((id: nat) => TxBegin(id), rest);
      case VTxEnd => res := ReadWithId((id: nat) => TxEnd(id), rest);
      case VTxAbort => res := ReadWithId((id: nat) => TxAbort(id), rest);
      case VTokenGen => res := ReadTokenGenCommand(rest);
    }
  }

  /** Reading a line token by token, with the scanning loops. */
  method ReadLine(line: string, json: JsonParser) returns (res: Parsed<Command>)
    ensures res == Parse(line, json)
  {
    var token := NextToken(line);
    if token.Err? {
      return Err(token.error);
    }
    var verb := VerbOf(token.value.0);
    if verb.None? {
      return Err("ERROR unknown_command");
    }
    res := ReadArguments(verb.value, token.value.1, json);
  }

  /** A line that does not parse changes nothing; any other is executed. */
  method ProcessCommand(line: string, app: AppState, json: JsonParser)
    returns (resp: Response, updates: seq<RoomUpdate>)
    requires app.Valid()
    modifies app, app.rooms.Values
    ensures app.Valid()
    ensures app.Model() == AppAfter(old(app.Model()), Parse(line, json))
    ensures Processed(old(app.Model()), Parse(line, json), resp, updates)
  {
    var parsed := ReadLine(line, json);
    if parsed.Err? {
      return Error(parsed.error), [];
    }
    var op := OpOf(parsed.value);
    if op.Some? {
      resp, updates := Execute(op.value, app);
    } else {
      resp := Answer(parsed.value, app);
      updates := [];
    }
  }
}
