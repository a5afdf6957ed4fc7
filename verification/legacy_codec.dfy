/** The older portal driver in app/lego.py. Its command builders
    (`switch_pad`, `fade_pad`, `flash_pad`) and `send_command` are byte for
    byte the same as the newer driver and are modelled by `Codec.Encode` and
    `Codec.Message`. What this module adds is the colon-delimited event string
    `update_nfc` returns and the way `Base.startLego` parses and reacts to it. */
module LegacyCodec {
  import opened Values
  import opened Colors
  import opened Codec

  /** `Base` in app/lego.py keeps its colours on a 0..255 scale. */
  const LEGACY_RED: Color := Color(255, 0, 0)
  const LEGACY_GREEN: Color := Color(0, 255, 0)
  const LEGACY_BLUE: Color := Color(0, 0, 255)

  const SEPARATOR: char := ':'

  /** The status word of an event string. */
  function StatusWord(wasRemoved: bool): string {
    if wasRemoved then "remove" else "added"
  }

  function FormatEvent(ev: TagEvent): string {
    StatusWord(ev.wasRemoved) + [SEPARATOR] + IntToString(ev.padNum) + [SEPARATOR] + ev.identifier
  }

  /** `update_nfc`: the same decoding as `get_tag_event`, rendered as
      "remove:<pad>:<id>" or "added:<pad>:<id>". */
  function UpdateNfc(read: Option<seq<byte>>): (r: Option<string>)
    ensures r.None? <==> read.None? || |read.value| < 6 || read.value[0] != EVENT_MARKER
    ensures r.Some? ==> r.value == FormatEvent(DecodeTagEvent(read).value)
  {
    match DecodeTagEvent(read)
    case None => None
    case Some(ev) => Some(FormatEvent(ev))
  }

  /** The three fields `startLego` pulls out of an event string. */
  datatype EventLine = EventLine(status: string, pad: int, identifier: string)

  /** `tag.split(':')[0]`, `int(tag.split(':')[1])`, `tag.split(':')[2]`,
      evaluated in that order, each failure raising. */
  function ParseEventLine(line: string): (r: Result<EventLine>)
    ensures var parts := Split(line, SEPARATOR);
      r.Ok? <==> |parts| >= 3 && ParseInt(parts[1]).Some?
    ensures var parts := Split(line, SEPARATOR);
      r.Ok? ==> r.value == EventLine(parts[0], ParseInt(parts[1]).value, parts[2])
    ensures var parts := Split(line, SEPARATOR);
      r == Err(ValueError) <==> |parts| >= 2 && ParseInt(parts[1]).None?
    ensures var parts := Split(line, SEPARATOR);
      r == Err(IndexError) <==> |parts| < 2 || (ParseInt(parts[1]).Some? && |parts| < 3)
    ensures r.Err? ==> r.error == IndexError || r.error == ValueError
  {
    var parts := Split(line, SEPARATOR);
    if |parts| < 2 then Err(IndexError)
    else match ParseInt(parts[1])
      case None => Err(ValueError)
      case Some(pad) =>
        if |parts| < 3 then Err(IndexError) else Ok(EventLine(parts[0], pad, parts[2]))
  }

  predicate NoSeparator(s: string) {
    forall i :: 0 <= i < |s| ==> s[i] != SEPARATOR
  }

  lemma IntToStringHasNoSeparator(i: int)
    ensures NoSeparator(IntToString(i))
  {
    if i < 0 {
      assert forall j :: 1 <= j < |IntToString(i)| ==> IntToString(i)[j] == NatToString(-i)[j - 1];
    }
  }

  /** Splitting an event string on ':' gives back exactly the status word,
      the decimal pad and the identifier. */
  lemma {:induction false} FormatSplits(ev: TagEvent)
    requires NoSeparator(ev.identifier)
    ensures Split(FormatEvent(ev), SEPARATOR) == [StatusWord(ev.wasRemoved), IntToString(ev.padNum), ev.identifier]
  {
    var st := StatusWord(ev.wasRemoved);
    var pad := IntToString(ev.padNum);
    IntToStringHasNoSeparator(ev.padNum);
    assert FormatEvent(ev) == st + [SEPARATOR] + (pad + [SEPARATOR] + ev.identifier);
    SplitAfterField(st, SEPARATOR, pad + [SEPARATOR] + ev.identifier);
    SplitAfterField(pad, SEPARATOR, ev.identifier);
    SplitNoSeparator(ev.identifier, SEPARATOR);
  }

  /** Every string `update_nfc` produces parses back into its status, pad and
      identifier, and the identifier contains no ':'. */
  lemma EventLineRoundTrip(read: Option<seq<byte>>)
    requires UpdateNfc(read).Some?
    ensures var ev := DecodeTagEvent(read).value;
      NoSeparator(ev.identifier)
      && |Split(UpdateNfc(read).value, SEPARATOR)| == 3
      && ParseEventLine(UpdateNfc(read).value) == Ok(EventLine(StatusWord(ev.wasRemoved), ev.padNum, ev.identifier))
  {
    var ev := DecodeTagEvent(read).value;
    DecodedIdentifierNormalised(read);
    FormatSplits(ev);
    IntToStringRoundTrip(ev.padNum);
  }

  /** What `spotify.spotcast` handed back to `startLego`: a duration in
      milliseconds (0 when the client is unconfigured, -1 when the cast
      failed), the empty string it returns when no token is found, or None
      for a cached song whose duration column is NULL. */
  datatype CastReply = Duration(ms: int) | EmptyReply | NoDuration

  /** What a Slack post meets: whether `tags['slack_hook']` is set, and
      whether the endpoint answers 200. */
  datatype Slack = Slack(hookSet: bool, accepted: bool)

  /** `tags['identifier']`: tag definitions by identifier. */
  type TagTable = map<string, Attributes>

  /** The device commands `startLego` issues for one event string, and the
      exception, if any, that then ends the loop. Playback, light shows and
      the Slack message itself run elsewhere and issue no commands from here. */
  datatype Reaction = Reaction(commands: seq<Command>, outcome: Outcome)

  /** The Slack post of an entry with a 'slack' key raises: KeyError without
      a hook, ValueError from `webhook.Requests.post` on any reply but 200. */
  predicate SlackRaises(entry: Attributes, slack: Slack) {
    "slack" in entry && !(slack.hookSet && slack.accepted)
  }

  /** `duration_ms > 0` raises TypeError for '' and None. */
  predicate CastRaises(entry: Attributes, cast: CastReply) {
    "spotify" in entry && !cast.Duration?
  }

  function HandleEventLine(table: TagTable, slack: Slack, line: string, cast: CastReply): Reaction {
    match ParseEventLine(line)
    case Err(e) => Reaction([], Fail(e))
    case Ok(EventLine(status, pad, identifier)) =>
      if status != "added" then Reaction([], Pass)
      else
        var switched := [ChangeColor(pad, LEGACY_BLUE)];
        if identifier !in table then Reaction(switched + [ChangeColor(pad, LEGACY_RED)], Pass)
        else
          var entry := table[identifier];
          if "slack" in entry && !slack.hookSet then Reaction(switched, Fail(KeyError("slack_hook")))
          else if "slack" in entry && !slack.accepted then Reaction(switched, Fail(ValueError))
          else if "spotify" !in entry then Reaction(switched, Pass)
          else match cast
            case Duration(ms) =>
              if ms > 0 then Reaction(switched, Pass)
              else Reaction(switched + [FlashColor(pad, 10, 10, 6, LEGACY_RED)], Pass)
            case _ => Reaction(switched, Fail(TypeError))
  }

  /** The command `startLego` sends once the portal is up: all pads green. */
  const STARTUP_COMMAND: Command := ChangeColor(0, LEGACY_GREEN)

  /** A removal packet leaves the pads untouched. */
  lemma RemovalLeavesPadsUntouched(table: TagTable, slack: Slack, read: Option<seq<byte>>, cast: CastReply)
    requires DecodeTagEvent(read).Some? && DecodeTagEvent(read).value.wasRemoved
    ensures HandleEventLine(table, slack, UpdateNfc(read).value, cast) == Reaction([], Pass)
  {
    EventLineRoundTrip(read);
  }

  /** An added tag first turns its pad blue; an identifier missing from the
      table then turns it red; a Spotify entry whose cast reports no positive
      duration flashes it red (on 10, off 10, six times). The handling
      raises exactly when the entry's Slack post fails or its cast gave no
      number, and then only the blue switch has been sent. */
  lemma AddedTagFeedback(table: TagTable, slack: Slack, read: Option<seq<byte>>, cast: CastReply)
    requires DecodeTagEvent(read).Some? && !DecodeTagEvent(read).value.wasRemoved
    ensures var ev := DecodeTagEvent(read).value;
      var r := HandleEventLine(table, slack, UpdateNfc(read).value, cast);
      |r.commands| >= 1 && r.commands[0] == ChangeColor(ev.padNum, LEGACY_BLUE)
    ensures var ev := DecodeTagEvent(read).value;
      ev.identifier !in table ==>
        HandleEventLine(table, slack, UpdateNfc(read).value, cast)
        == Reaction([ChangeColor(ev.padNum, LEGACY_BLUE), ChangeColor(ev.padNum, LEGACY_RED)], Pass)
    ensures var ev := DecodeTagEvent(read).value;
      ev.identifier in table && !SlackRaises(table[ev.identifier], slack)
      && "spotify" in table[ev.identifier] && cast.Duration? && cast.ms <= 0 ==>
        HandleEventLine(table, slack, UpdateNfc(read).value, cast)
        == Reaction([ChangeColor(ev.padNum, LEGACY_BLUE), FlashColor(ev.padNum, 10, 10, 6, LEGACY_RED)], Pass)
    ensures var ev := DecodeTagEvent(read).value;
      var r := HandleEventLine(table, slack, UpdateNfc(read).value, cast);
      r.outcome.Fail?
      <==> ev.identifier in table
           && (SlackRaises(table[ev.identifier], slack) || CastRaises(table[ev.identifier], cast))
    ensures var ev := DecodeTagEvent(read).value;
      var r := HandleEventLine(table, slack, UpdateNfc(read).value, cast);
      r.outcome.Fail? ==> r.commands == [ChangeColor(ev.padNum, LEGACY_BLUE)]
    ensures var ev := DecodeTagEvent(read).value;
      var r := HandleEventLine(table, slack, UpdateNfc(read).value, cast);
      ev.identifier in table && "slack" in table[ev.identifier] && !slack.hookSet ==>
        r.outcome == Fail(KeyError("slack_hook"))
  {
    var ev := DecodeTagEvent(read).value;
    EventLineRoundTrip(read);
    assert ParseEventLine(UpdateNfc(read).value) == Ok(EventLine("added", ev.padNum, ev.identifier));
    var switched := [ChangeColor(ev.padNum, LEGACY_BLUE)];
    assert switched + [ChangeColor(ev.padNum, LEGACY_RED)]
      == [ChangeColor(ev.padNum, LEGACY_BLUE), ChangeColor(ev.padNum, LEGACY_RED)];
    assert switched + [FlashColor(ev.padNum, 10, 10, 6, LEGACY_RED)]
      == [ChangeColor(ev.padNum, LEGACY_BLUE), FlashColor(ev.padNum, 10, 10, 6, LEGACY_RED)];
  }
}
