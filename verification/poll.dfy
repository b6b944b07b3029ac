/** `main` (homework.py:115-143) without its clock, sleep and network: the
    start-up checks, one pass of the loop body as a pure step, and the run of
    many passes over a cursor that is fixed at start-up. */
module PollLoop {
  import opened Wrappers
  import opened JsonValue
  import opened Errors
  import opened Catalog
  import opened Formatter
  import opened Validator
  import opened Api
  import opened Tokens

  const NoUpdatesMsg: string := "Обновления отсутствуют"
  const StartupMsg: string := "Бот корректно инициализировался"

  /** What one pass of the loop did: the `from_date` it asked for, the
      messages it handed to `send_message`, and the exception the loop's
      handler caught, if any. */
  datatype Cycle = Cycle(fromDate: int, sent: seq<string>, failure: Option<PyError>)

  /** The only texts a pass ever sends: a status notification or "no updates". */
  predicate KnownText(m: string)
  {
    m == NoUpdatesMsg || Decode(m).Some?
  }

  /** The try-body of the loop: fetch, validate, then notify about the first
      homework, or notify that there is nothing and fail. Sending never fails
      here: `send_message` swallows delivery errors. */
  function PollOnce(cursor: int, now: int, reply: HttpReply): (c: Cycle)
    ensures c.fromDate == FromDate(cursor, now)
    ensures |c.sent| <= 1
    ensures c.failure.None? ==> |c.sent| == 1 && Decode(c.sent[0]).Some?
    ensures forall k :: 0 <= k < |c.sent| ==> KnownText(c.sent[k])
    ensures GetApiAnswer(reply).Err? ==> c.sent == [] && c.failure == Some(GetApiAnswer(reply).error)
    ensures GetApiAnswer(reply).Ok? && CheckResponse(GetApiAnswer(reply).value).Err? ==>
              c.sent == [] && c.failure == Some(CheckResponse(GetApiAnswer(reply).value).error)
  {
    var fromDate := FromDate(cursor, now);
    match GetApiAnswer(reply)
    case Err(e) => Cycle(fromDate, [], Some(e))
    case Ok(answer) =>
      match CheckResponse(answer)
      case Err(e) => Cycle(fromDate, [], Some(e))
      case Ok(homeworks) =>
        if |homeworks| > 0 then
          match ParseStatus(homeworks[0])
          case Err(e) => Cycle(fromDate, [], Some(e))
          case Ok(message) =>
            ParseStatusRecoversRecord(homeworks[0]);
            Cycle(fromDate, [message], None)
        else
          Cycle(fromDate, [NoUpdatesMsg], Some(ValueError(NoUpdatesMsg)))
  }

  /** A 200 reply whose body holds `homeworks` under the given entries. */
  function OkReply(fields: map<string, Json>, homeworks: seq<Json>): HttpReply
  {
    Reply(HttpOk, Some(JObj(fields["homeworks" := JArr(homeworks)])))
  }

  /** With a non-empty list, exactly the first homework is reported: its
      notification is sent and the pass succeeds, or nothing is sent and the
      pass fails with `parse_status`'s error. */
  lemma PollOnceReportsFirst(cursor: int, now: int, fields: map<string, Json>, first: Json, rest: seq<Json>)
    ensures var c := PollOnce(cursor, now, OkReply(fields, [first] + rest));
            match ParseStatus(first)
            case Ok(message) => c.sent == [message] && c.failure.None?
            case Err(e) => c.sent == [] && c.failure == Some(e)
  {
    CheckResponseReturnsList(fields, [first] + rest);
  }

  /** Homeworks after the first never influence a pass. */
  lemma PollOnceIgnoresLater(cursor: int, now: int, fields: map<string, Json>, first: Json, rest1: seq<Json>, rest2: seq<Json>)
    ensures PollOnce(cursor, now, OkReply(fields, [first] + rest1)) == PollOnce(cursor, now, OkReply(fields, [first] + rest2))
  {
    PollOnceReportsFirst(cursor, now, fields, first, rest1);
    PollOnceReportsFirst(cursor, now, fields, first, rest2);
  }

  /** An empty list sends the "no updates" text and then fails. */
  lemma PollOnceNoUpdates(cursor: int, now: int, fields: map<string, Json>)
    ensures PollOnce(cursor, now, OkReply(fields, [])).sent == [NoUpdatesMsg]
    ensures PollOnce(cursor, now, OkReply(fields, [])).failure == Some(ValueError(NoUpdatesMsg))
  {
    CheckResponseReturnsList(fields, []);
  }

  /** A pass succeeds exactly when the reply is a 200 with a well-shaped
      answer whose first homework has a catalog status; its one message then
      reports that homework's name and status. */
  lemma PollOnceSucceedsIff(cursor: int, now: int, reply: HttpReply)
    ensures PollOnce(cursor, now, reply).failure.None? <==>
              && reply.Reply? && reply.statusCode == HttpOk && reply.body.Some?
              && WellShaped(reply.body.value)
              && var homeworks := reply.body.value.fields["homeworks"].items;
              && |homeworks| > 0
              && homeworks[0].JObj?
              && StatusOf(Get(homeworks[0].fields, "status")).Some?
    ensures PollOnce(cursor, now, reply).failure.None? ==>
              var first := reply.body.value.fields["homeworks"].items[0];
              Decode(PollOnce(cursor, now, reply).sent[0])
                == Some((NameText(Get(first.fields, "homework_name")), StatusOf(Get(first.fields, "status")).value))
  {
    if reply.Reply? && reply.statusCode == HttpOk && reply.body.Some? && WellShaped(reply.body.value) {
      var homeworks := reply.body.value.fields["homeworks"].items;
      if |homeworks| > 0 {
        var first := homeworks[0];
        ParseStatusRecoversRecord(first);
        if first.JObj? && StatusOf(Get(first.fields, "status")).Some? {
          var st := StatusOf(Get(first.fields, "status")).value;
          assert Get(first.fields, "status") == JStr(Key(st));
        }
      }
    }
  }

  /** One loop pass: the clock reading at its start and the server's reply. */
  datatype Tick = Tick(now: int, reply: HttpReply)

  /** The passes of the `while True` loop over a fixed cursor. Each pass is
      decided by its own tick alone: a failing pass never stops or changes
      the ones after it. */
  function Cycles(cursor: int, ticks: seq<Tick>): (cs: seq<Cycle>)
    ensures |cs| == |ticks|
    ensures forall i :: 0 <= i < |ticks| ==> cs[i] == PollOnce(cursor, ticks[i].now, ticks[i].reply)
  {
    if |ticks| == 0 then []
    else [PollOnce(cursor, ticks[0].now, ticks[0].reply)] + Cycles(cursor, ticks[1..])
  }

  /** All messages the passes sent, in order. */
  function Sent(cs: seq<Cycle>): (msgs: seq<string>)
    requires forall i :: 0 <= i < |cs| ==> |cs[i].sent| <= 1
    ensures |msgs| <= |cs|
  {
    if |cs| == 0 then [] else cs[0].sent + Sent(cs[1..])
  }

  /** Whatever the server answers, the passes send only known texts. */
  lemma {:induction false} SentKnownTexts(cursor: int, ticks: seq<Tick>)
    ensures forall k :: 0 <= k < |Sent(Cycles(cursor, ticks))| ==> KnownText(Sent(Cycles(cursor, ticks))[k])
    decreases |ticks|
  {
    if |ticks| > 0 {
      var cs := Cycles(cursor, ticks);
      SentKnownTexts(cursor, ticks[1..]);
      assert cs[1..] == Cycles(cursor, ticks[1..]);
      assert Sent(cs) == cs[0].sent + Sent(cs[1..]);
    }
  }

  /** The cursor is never advanced: every pass of a run started at a non-zero
      time asks for homeworks from that same time. */
  lemma CursorNeverAdvances(startTime: int, ticks: seq<Tick>)
    requires startTime != 0
    ensures forall i :: 0 <= i < |ticks| ==> Cycles(startTime, ticks)[i].fromDate == startTime
  {
  }

  datatype ExitReason = MissingToken(name: string) | BotUnavailable

  /** How a run of the program ends up: it exits during start-up, or it
      polls, having sent the start-up message and then the passes' messages. */
  datatype Run = Exited(reason: ExitReason) | Polled(sent: seq<string>, cycles: seq<Cycle>)

  /** `main()`. `botStarts` says whether constructing the bot and sending the
      start-up message succeeded; `startTime` is the clock reading that seeds
      the cursor; `ticks` are the loop passes observed so far. */
  function Main(config: Config, botStarts: bool, startTime: int, ticks: seq<Tick>): (run: Run)
    ensures run.Exited? <==> !AllPresent(TokenTable(config)) || !botStarts
    ensures !AllPresent(TokenTable(config)) ==> run == Exited(MissingToken(FirstMissing(TokenTable(config)).value))
    ensures AllPresent(TokenTable(config)) && !botStarts ==> run == Exited(BotUnavailable)
    ensures run.Polled? ==> |run.cycles| == |ticks| && 1 <= |run.sent| <= 1 + |ticks| && run.sent[0] == StartupMsg
    ensures run.Polled? ==> forall i :: 0 <= i < |ticks| ==> run.cycles[i].fromDate == FromDate(startTime, ticks[i].now)
    ensures run.Polled? ==> forall i :: 0 <= i < |ticks| ==> run.cycles[i] == PollOnce(startTime, ticks[i].now, ticks[i].reply)
    ensures run.Polled? ==> (forall i :: 0 <= i < |run.cycles| ==> |run.cycles[i].sent| <= 1)
                            && run.sent == [StartupMsg] + Sent(run.cycles)
    ensures run.Polled? ==> forall k :: 1 <= k < |run.sent| ==> KnownText(run.sent[k])
  {
    var missing := FirstMissing(TokenTable(config));
    if missing.Some? then Exited(MissingToken(missing.value))
    else if !botStarts then Exited(BotUnavailable)
    else
      var cs := Cycles(startTime, ticks);
      SentKnownTexts(startTime, ticks);
      Polled([StartupMsg] + Sent(cs), cs)
  }

  /** The worked example: of a rejected "X" followed by an approved "Y", only
      X's rejection is reported. */
  lemma FirstOfTwoExample(cursor: int, now: int)
    ensures
      var x := JObj(map["status" := JStr("rejected"), "homework_name" := JStr("X")]);
      var y := JObj(map["status" := JStr("approved"), "homework_name" := JStr("Y")]);
      PollOnce(cursor, now, OkReply(map[], [x, y])).sent == [Compose("X", Rejected)]
  {
    var x := JObj(map["status" := JStr("rejected"), "homework_name" := JStr("X")]);
    var y := JObj(map["status" := JStr("approved"), "homework_name" := JStr("Y")]);
    assert Get(x.fields, "status") == JStr(Key(Rejected));
    assert [x, y] == [x] + [y];
    PollOnceReportsFirst(cursor, now, map[], x, [y]);
  }
}
