/**
  What each command does to the rooms, what it answers and what it announces, said of the rooms
  themselves and of the texts on the wire.
 */
module CommandLaws {
  import opened Data
  import opened WriteLog
  import opened RoomModel
  import opened RoomLaws
  import opened HubModel
  import opened AppModel
  import C = Commands
  import Decimal
  import Tokenizer
  import Utf8

  // ---------------------------------------------------------------- effects

  /** No room comes or goes, and no room but this one changes. */
  ghost predicate OnlyRoom(app: App, app': App, id: nat) {
    && app'.nextRoomId == app.nextRoomId && app'.rooms.Keys == app.rooms.Keys
    && forall other | other in app.rooms && other != id :: app'.rooms[other] == app.rooms[other]
  }

  ghost predicate Refused(app: App, app': App, resp: C.Response, text: string) {
    app' == app && resp == C.Error(text)
  }

  /** The room is now `room`, nothing else changed, and the answer is a plain OK. */
  ghost predicate RoomIsNow(app: App, app': App, id: nat, room: Room, resp: C.Response) {
    id in app.rooms && OnlyRoom(app, app', id) && app'.rooms[id] == room && resp == C.Plain
  }

  ghost predicate Written(app: App, app': App, id: nat, c: string, k: string, v: Value, resp: C.Response) {
    && id in app.rooms && OnlyRoom(app, app', id) && resp == C.Plain
    && WriteDone(app.rooms[id], app'.rooms[id], c, k, v)
  }

  /** What a command may do to the rooms, and its answer. */
  ghost predicate Effect(app: App, cmd: C.Command, app': App, resp: C.Response) {
    match cmd
    case RoomCreate =>
      && app.nextRoomId !in app.rooms && resp == C.WithRoomId(app.nextRoomId)
      && app' == App(app.rooms[app.nextRoomId := Room([], None)], app.nextRoomId + 1)
    case RoomDelete(id) =>
      if id !in app.rooms then Refused(app, app', resp, "ERROR room_not_found")
      else app' == App(app.rooms - {id}, app.nextRoomId) && resp == C.Plain
    case TxBegin(id) =>
      if id !in app.rooms then Refused(app, app', resp, "ERROR room_not_found")
      else if app.rooms[id].tx.Some? then Refused(app, app', resp, "ERROR tx_already_open")
      else RoomIsNow(app, app', id, Room(app.rooms[id].log, Some([])), resp)
    case TxEnd(id) =>
      if id !in app.rooms then Refused(app, app', resp, "ERROR room_not_found")
      else if app.rooms[id].tx.None? then Refused(app, app', resp, "ERROR tx_not_open")
      else RoomIsNow(app, app', id, Room(app.rooms[id].log + app.rooms[id].tx.value, None), resp)
    case TxAbort(id) =>
      if id !in app.rooms then Refused(app, app', resp, "ERROR room_not_found")
      else RoomIsNow(app, app', id, Room(app.rooms[id].log, None), resp)
    case Set(id, c, k, v) =>
      if id !in app.rooms then Refused(app, app', resp, "ERROR room_not_found")
      else Written(app, app', id, c, k, v, resp)
    case Del(id, c, k) =>
      if id !in app.rooms then Refused(app, app', resp, "ERROR room_not_found")
      else if app.rooms[id].tx.None? && c !in Index(app.rooms[id].log) then
        Refused(app, app', resp, "ERROR container_not_found")
      else Written(app, app', id, c, k, Null, resp)
    case _ => app' == app && Answer(app, cmd, resp)
  }

  /** What the commands that change nothing answer. */
  ghost predicate Answer(app: App, cmd: C.Command, resp: C.Response) {
    match cmd
    case Get(id, c, k) =>
      if id !in app.rooms then resp == C.Error("ERROR room_not_found")
      else
        var stored := Index(app.rooms[id].log);
        if c !in stored then resp == C.Error("ERROR container_not_found")
        else if k !in stored[c] then resp == C.Error("ERROR not_found")
        else if stored[c][k].value == Null then resp == C.Error("ERROR tombstone")
        else resp == C.WithFragment(stored[c][k].value, stored[c][k].keyVersion)
    case Version(id) =>
      if id !in app.rooms then resp == C.Error("ERROR room_not_found")
      else resp == C.WithVersion(|app.rooms[id].log|)
    case RoomInfo(id) =>
      if id !in app.rooms then resp == C.Error("ERROR room_not_found")
      else
        var stored := Index(app.rooms[id].log);
        resp == C.WithInfo(RoomInfo(id, |app.rooms[id].log|, |stored|, |Stored(stored, stored.Keys)|))
    case RoomList =>
      && resp.WithRooms?
      && (forall i, j | 0 <= i < j < |resp.ids| :: resp.ids[i] < resp.ids[j])
      && forall id :: id in resp.ids <==> id in app.rooms
    case _ => true
  }

  lemma WriteCommand(app: App, id: nat, op: RoomOp)
    requires op.IsWrite() && id in app.rooms
    ensures var (app', reply) := Perform(app, OnRoom(id, op));
      if op.Del? && app.rooms[id].tx.None? && op.container !in Index(app.rooms[id].log) then
        Refused(app, app', C.ReplyText(reply), "ERROR container_not_found")
      else Written(app, app', id, op.container, op.key, if op.Set? then op.value else Null, C.ReplyText(reply))
  {
    AcceptedIff(app.rooms[id], op);
    if Apply(app.rooms[id], op).1.Ok? {
      WriteEffect(app.rooms[id], op);
    } else {
      assert app.rooms[id := app.rooms[id]] == app.rooms;
    }
  }

  lemma TransactionCommand(app: App, id: nat, op: RoomOp)
    requires !op.IsWrite() && id in app.rooms
    ensures var (app', reply) := Perform(app, OnRoom(id, op));
      var r, resp := app.rooms[id], C.ReplyText(reply);
      if op.Begin? && r.tx.Some? then Refused(app, app', resp, "ERROR tx_already_open")
      else if op.End? && r.tx.None? then Refused(app, app', resp, "ERROR tx_not_open")
      else RoomIsNow(app, app', id, if op.Begin? then Room(r.log, Some([]))
                                    else if op.End? then Room(r.log + r.tx.value, None) else Room(r.log, None), resp)
  {
    AcceptedIff(app.rooms[id], op);
    if Apply(app.rooms[id], op).1.Ok? {
      TransactionEffect(app.rooms[id], op);
    } else {
      assert app.rooms[id := app.rooms[id]] == app.rooms;
    }
  }

  lemma ReadAnswer(app: App, cmd: C.Command, resp: C.Response)
    requires C.OpOf(cmd).None? && C.Answers(app, cmd, resp)
    ensures Answer(app, cmd, resp)
  {
    match cmd
    case Get(id, c, k) =>
      if id in app.rooms {
        FragmentIsStored(app.rooms[id], c, k, Null, 0);
        if Fragment(app.rooms[id], c, k).Ok? {
          var (v, n) := Fragment(app.rooms[id], c, k).value;
          FragmentIsStored(app.rooms[id], c, k, v, n);
        }
      }
    case RoomInfo(id) =>
      if id in app.rooms {
        InfoCounts(id, app.rooms[id]);
        Accounting(app.rooms[id].log);
      }
    case _ =>
  }

  /** Every command does to the rooms exactly this, and answers this; a refused one changes nothing. */
  lemma CommandEffect(app: App, cmd: C.Command, resp: C.Response, updates: seq<RoomUpdate>)
    requires ValidApp(app) && C.Processed(app, Ok(cmd), resp, updates)
    ensures Effect(app, cmd, C.AppAfter(app, Ok(cmd)), resp)
  {
    match cmd
    case TxBegin(id) => if id in app.rooms { TransactionCommand(app, id, Begin); }
    case TxEnd(id) => if id in app.rooms { TransactionCommand(app, id, End); }
    case TxAbort(id) => if id in app.rooms { TransactionCommand(app, id, Abort); }
    case Set(id, c, k, v) => if id in app.rooms { WriteCommand(app, id, RoomOp.Set(c, k, v)); }
    case Del(id, c, k) => if id in app.rooms { WriteCommand(app, id, RoomOp.Del(c, k)); }
    case RoomCreate =>
    case RoomDelete(_) =>
    case _ => ReadAnswer(app, cmd, resp);
  }

  /** The same for the line on which a command is printed. */
  lemma LineEffect(app: App, cmd: C.Command, text: string, json: C.JsonParser, resp: C.Response,
                   updates: seq<RoomUpdate>)
    requires ValidApp(app) && C.Printable(cmd)
    requires cmd.Set? ==> text != [] && !Tokenizer.IsWhitespace(text[0]) && json(text) == Ok(cmd.value)
    requires C.Processed(app, C.Parse(C.PrintCommand(cmd, text), json), resp, updates)
    ensures Effect(app, cmd, C.AppAfter(app, C.Parse(C.PrintCommand(cmd, text), json)), resp)
  {
    C.CommandRoundTrip(cmd, text, json);
    CommandEffect(app, cmd, resp, updates);
  }

  // ---------------------------------------------------------------- announcements

  /** What a write into a room is announced as; the counter is the committed one after it. */
  ghost function WriteEvent(app: App, id: nat, c: string, k: string, v: Value): Option<Event> {
    if id !in app.rooms then None
    else
      var counter := |app.rooms[id].log| + (if app.rooms[id].tx.Some? then 0 else 1);
      Some(if c == "*" && k == "*" then CounterEvent(id, counter) else KeyEvent(id, counter, c, k, v))
  }

  ghost function DelEvent(app: App, id: nat, c: string, k: string): Option<Event> {
    if id in app.rooms && app.rooms[id].tx.None? && c !in Index(app.rooms[id].log) then None
    else WriteEvent(app, id, c, k, Null)
  }

  ghost function EndEvent(app: App, id: nat): Option<Event> {
    if id in app.rooms && app.rooms[id].tx.Some? then
      Some(CounterEvent(id, |app.rooms[id].log| + |app.rooms[id].tx.value|))
    else None
  }

  /** The event that a command is announced as, if any. */
  ghost function AnnouncedAs(app: App, cmd: C.Command): Option<Event> {
    match cmd
    case Set(id, c, k, v) => WriteEvent(app, id, c, k, v)
    case Del(id, c, k) => DelEvent(app, id, c, k)
    case TxEnd(id) => EndEvent(app, id)
    case _ => None
  }

  /** The same for an operation of the table of rooms. */
  ghost function EventFor(app: App, op: AppOp): Option<Event> {
    if !op.OnRoom? then None
    else
      match op.op
      case Set(c, k, v) => WriteEvent(app, op.id, c, k, v)
      case Del(c, k) => DelEvent(app, op.id, c, k)
      case End => EndEvent(app, op.id)
      case _ => None
  }

  ghost predicate Announces(updates: seq<RoomUpdate>, event: Option<Event>) {
    if event.None? then updates == []
    else
      && |updates| == 1 && EventOf(updates[0]) == event.value && updates[0].roomId == event.value.roomId
      && updates[0].container == if event.value.KeyEvent? then event.value.container else "*"
  }

  lemma OperationAnnounces(app: App, op: AppOp)
    ensures Announces(C.UpdatesFor(app, op), EventFor(app, op))
    ensures EventFor(app, op).Some? ==> op.OnRoom? && EventFor(app, op).value.roomId == op.id
  {
    if op.OnRoom? && op.id in app.rooms {
      AcceptedIff(app.rooms[op.id], op.op);
    }
  }

  /** Every command hands on exactly one update for its event, or none. */
  lemma CommandAnnounces(app: App, cmd: C.Command, resp: C.Response, updates: seq<RoomUpdate>)
    requires C.Processed(app, Ok(cmd), resp, updates)
    ensures Announces(updates, AnnouncedAs(app, cmd))
  {
    if C.OpOf(cmd).Some? {
      OperationAnnounces(app, C.OpOf(cmd).value);
    }
  }

  // ---------------------------------------------------------------- refusals

  const VERBS := {"ROOM.CREATE", "ROOM.DELETE", "ROOM.LIST", "ROOM.INFO", "SET", "DEL", "GET", "VERSION", "SET.JWTKEY",
                  "TX.BEGIN", "TX.END", "TX.ABORT", "TOKEN.GEN"}

  /** A line is refused before any argument is read exactly in these ways. */
  lemma UnreadableLine(line: string, json: C.JsonParser)
    ensures Tokenizer.TrimStart(line) == [] ==> C.Parse(line, json) == Err("ERROR missing_argument")
    ensures var s := Tokenizer.TrimStart(line);
      s != [] && s[0] == '"' && Tokenizer.Unquote(s[1..], false).None? ==>
        C.Parse(line, json) == Err("ERROR invalid_argument")
    ensures Tokenizer.TakeToken(line).Ok? && Tokenizer.TakeToken(line).value.0 !in VERBS ==>
      C.Parse(line, json) == Err("ERROR unknown_command")
  {
    if Tokenizer.TakeToken(line).Ok? {
      var tok := Tokenizer.TakeToken(line).value.0;
      if C.VerbOf(tok).Some? {
        C.VerbOfInverse(tok);
        KnownVerb(C.VerbOf(tok).value);
      }
    }
  }

  lemma KnownVerb(verb: C.Verb)
    ensures verb.Text() in VERBS
  {
  }

  /** A printed command whose arguments are complete, followed by anything more. */
  lemma ExtraArguments(cmd: C.Command, text: string, extra: string, json: C.JsonParser)
    requires C.Printable(cmd) && !cmd.Set? && !cmd.TokenGen? && Tokenizer.TrimStart(extra) != []
    ensures C.Parse(C.PrintCommand(cmd, text) + " " + extra, json) == Err("ERROR extra_arguments")
  {
    var verb, args := C.VerbFor(cmd), C.ArgsFor(cmd, text);
    C.PrintedLine(cmd, text);
    if cmd.RoomCreate? || cmd.RoomList? {
      assert verb.Text() + " " + extra == C.Line(verb, extra);
      ExtraAfterVerb(verb, extra, json);
    } else {
      LonelyLine(verb, args, extra);
      C.ReadVerb(verb, args + ([' '] + extra), json);
      ExtraIsRefused(cmd, text, extra, json);
    }
  }

  lemma LonelyLine(verb: C.Verb, args: string, extra: string)
    ensures C.Line(verb, args) + " " + extra == C.Line(verb, args + ([' '] + extra))
  {
  }

  lemma ExtraAfterVerb(verb: C.Verb, extra: string, json: C.JsonParser)
    requires (verb.VRoomCreate? || verb.VRoomList?) && Tokenizer.TrimStart(extra) != []
    ensures C.Parse(C.Line(verb, extra), json) == Err("ERROR extra_arguments")
  {
    C.ReadVerb(verb, extra, json);
    Tokenizer.SkipSpace([' '], extra);
  }

  ghost predicate RefusesExtra(verb: C.Verb, args: string, extra: string, json: C.JsonParser) {
    C.ArgumentsOf(verb, [' '] + (args + ([' '] + extra)), json) == Err("ERROR extra_arguments")
  }

  lemma ExtraIsRefused(cmd: C.Command, text: string, extra: string, json: C.JsonParser)
    requires C.Printable(cmd) && !cmd.RoomCreate? && !cmd.RoomList? && !cmd.Set? && !cmd.TokenGen?
    requires Tokenizer.TrimStart(extra) != []
    ensures RefusesExtra(C.VerbFor(cmd), C.ArgsFor(cmd, text), extra, json)
  {
    match cmd
    case Del(id, c, k) => ExtraAfterDel(id, c, k, extra, json);
    case Get(id, c, k) => ExtraAfterGet(id, c, k, extra, json);
    case SetJwtKey(key) => ExtraAfterJwtKey(key, extra, json);
    case RoomDelete(id) => ExtraAfterOnlyId(C.VRoomDelete, id, extra, json);
    case RoomInfo(id) => ExtraAfterOnlyId(C.VRoomInfo, id, extra, json);
    case Version(id) => ExtraAfterOnlyId(C.VVersion, id, extra, json);
    case TxBegin(id) => ExtraAfterOnlyId(C.VTxBegin, id, extra, json);
    case TxEnd(id) => ExtraAfterOnlyId(C.VTxEnd, id, extra, json);
    case TxAbort(id) => ExtraAfterOnlyId(C.VTxAbort, id, extra, json);
  }

  lemma ExtraAfterDel(id: nat, c: string, k: string, extra: string, json: C.JsonParser)
    requires id < Decimal.U64_LIMIT && C.ShortNames(c, k) && Tokenizer.TrimStart(extra) != []
    ensures RefusesExtra(C.VDel, C.IdThen(id, C.NamesThen(c, k, [])), extra, json)
  {
    ExtraAfterNames(id, c, k, extra);
  }

  lemma ExtraAfterGet(id: nat, c: string, k: string, extra: string, json: C.JsonParser)
    requires id < Decimal.U64_LIMIT && C.ShortNames(c, k) && Tokenizer.TrimStart(extra) != []
    ensures RefusesExtra(C.VGet, C.IdThen(id, C.NamesThen(c, k, [])), extra, json)
  {
    ExtraAfterNames(id, c, k, extra);
  }

  lemma ExtraAfterJwtKey(key: string, extra: string, json: C.JsonParser)
    requires Tokenizer.TrimStart(extra) != []
    ensures RefusesExtra(C.VSetJwtKey, Tokenizer.QuotedLine(key), extra, json)
  {
    ExtraAfterKey(key, extra);
  }

  lemma ExtraAfterOnlyId(verb: C.Verb, id: nat, extra: string, json: C.JsonParser)
    requires C.IdCommand(verb, id).Some? && id < Decimal.U64_LIMIT && Tokenizer.TrimStart(extra) != []
    ensures RefusesExtra(verb, C.IdThen(id, []), extra, json)
  {
    ExtraAfterId(id, extra, [' '] + (C.IdThen(id, []) + ([' '] + extra)));
  }

  lemma ExtraAfterId(id: nat, extra: string, args: string)
    requires id < Decimal.U64_LIMIT && Tokenizer.TrimStart(extra) != []
    requires args == [' '] + (C.IdThen(id, []) + ([' '] + extra))
    ensures C.OnlyRoomId(args) == Err("ERROR extra_arguments")
  {
    IdJoin(id, [' '] + extra);
    C.ReadRoomId(id, [' '] + extra);
    Tokenizer.SkipSpace([' '], extra);
  }

  lemma IdJoin(id: nat, more: string)
    ensures C.IdThen(id, []) + more == C.IdThen(id, more)
  {
  }

  lemma ExtraAfterNames(id: nat, c: string, k: string, extra: string)
    requires id < Decimal.U64_LIMIT && C.ShortNames(c, k) && Tokenizer.TrimStart(extra) != []
    ensures C.OnlyKeyed([' '] + (C.IdThen(id, C.NamesThen(c, k, [])) + ([' '] + extra))) == Err("ERROR extra_arguments")
  {
    C.ReadNames(id, c, k, [' '] + extra);
    NamesJoin(id, c, k, [' '] + extra);
    Tokenizer.SkipSpace([' '], extra);
  }

  lemma NamesJoin(id: nat, c: string, k: string, more: string)
    ensures C.IdThen(id, C.NamesThen(c, k, [])) + more == C.IdThen(id, C.NamesThen(c, k, more))
  {
    var first, second := [' '] + Tokenizer.QuotedLine(c), [' '] + Tokenizer.QuotedLine(k);
    assert first + (second + []) + more == first + (second + more);
  }

  lemma ExtraAfterKey(key: string, extra: string)
    requires Tokenizer.TrimStart(extra) != []
    ensures C.JwtKeyOf([' '] + (Tokenizer.QuotedLine(key) + ([' '] + extra))) == Err("ERROR extra_arguments")
  {
    Tokenizer.QuotedRoundTrip([' '], key, [' '] + extra);
    assert [' '] + (Tokenizer.QuotedLine(key) + ([' '] + extra)) == [' '] + Tokenizer.QuotedLine(key) + ([' '] + extra);
    Tokenizer.SkipSpace([' '], extra);
  }

  /** A verb that needs arguments, alone on its line. */
  lemma MissingArguments(verb: C.Verb, json: C.JsonParser)
    requires !verb.VRoomCreate? && !verb.VRoomList?
    ensures C.Parse(verb.Text(), json) == Err("ERROR missing_argument")
  {
    C.ReadVerb(verb, [], json);
    assert Tokenizer.TakeToken([]) == Err("ERROR missing_argument");
  }

  /** A first argument that is no number below 2^64, where a room id is expected. */
  lemma BadRoomId(verb: C.Verb, tok: string, rest: string, json: C.JsonParser)
    requires !verb.VRoomCreate? && !verb.VRoomList? && !verb.VSetJwtKey?
    requires Tokenizer.Bare(tok) && (rest == [] || Tokenizer.IsWhitespace(rest[0])) && Decimal.ParseU64(tok).None?
    ensures C.Parse(C.Line(verb, tok + rest), json) == Err("ERROR invalid_room_id")
  {
    C.ReadVerb(verb, tok + rest, json);
    ReadBadId(tok, rest, [' '] + (tok + rest));
  }

  lemma ReadBadId(tok: string, rest: string, args: string)
    requires args == [' '] + (tok + rest)
    requires Tokenizer.Bare(tok) && (rest == [] || Tokenizer.IsWhitespace(rest[0])) && Decimal.ParseU64(tok).None?
    ensures C.RoomIdOf(args) == Err("ERROR invalid_room_id")
  {
    Tokenizer.BareRoundTrip([' '], tok, rest);
    assert args == [' '] + tok + rest;
  }

  /** Names of more than 256 bytes, the container's first; and a SET without a value or with one that is not JSON. */
  lemma BadNamesOrValue(verb: C.Verb, id: nat, c: string, k: string, rest: string, json: C.JsonParser)
    requires (verb.VSet? || verb.VDel? || verb.VGet?) && id < Decimal.U64_LIMIT
    ensures var parsed := C.Parse(C.Line(verb, C.IdThen(id, C.NamesThen(c, k, rest))), json);
      var value := Tokenizer.TrimStart(rest);
      if Utf8.ByteLength(c) > 256 then parsed == Err("ERROR container_name_too_long")
      else if Utf8.ByteLength(k) > 256 then parsed == Err("ERROR key_too_long")
      else if verb.VSet? && value == [] then parsed == Err("ERROR missing_value")
      else if verb.VSet? && json(value).Err? then parsed == Err("ERROR invalid_json " + json(value).error)
      else verb.VSet? ==> parsed == Ok(C.Set(id, c, k, json(value).value))
  {
    C.ReadVerb(verb, C.IdThen(id, C.NamesThen(c, k, rest)), json);
    BadKeyed(verb, id, c, k, rest, [' '] + C.IdThen(id, C.NamesThen(c, k, rest)), json);
  }

  lemma BadKeyed(verb: C.Verb, id: nat, c: string, k: string, rest: string, args: string, json: C.JsonParser)
    requires (verb.VSet? || verb.VDel? || verb.VGet?) && id < Decimal.U64_LIMIT
    requires args == [' '] + C.IdThen(id, C.NamesThen(c, k, rest))
    ensures var parsed, value := C.ArgumentsOf(verb, args, json), Tokenizer.TrimStart(rest);
      if Utf8.ByteLength(c) > 256 then parsed == Err("ERROR container_name_too_long")
      else if Utf8.ByteLength(k) > 256 then parsed == Err("ERROR key_too_long")
      else if verb.VSet? && value == [] then parsed == Err("ERROR missing_value")
      else if verb.VSet? && json(value).Err? then parsed == Err("ERROR invalid_json " + json(value).error)
      else verb.VSet? ==> parsed == Ok(C.Set(id, c, k, json(value).value))
  {
    C.ReadNames(id, c, k, rest);
  }
}
