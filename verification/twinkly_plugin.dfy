/** `TwinklyTag` and the pattern upload of `TwinklyPlugin`
    (musicfig/plugins/twinkly.py). Each network reply is an input; the
    calls made, in order, are the output. */
module TwinklyPlugin {
  import opened Values
  import opened Tags

  /** `get_ms_per_frame`: `int(1000 / fps)`, truncated toward zero. */
  function MsPerFrame(fps: int): (r: Result<int>)
    ensures r.Err? <==> fps == 0
    ensures r.Err? ==> r.error == ZeroDivisionError
    ensures r.Ok? ==> Abs(r.value) == 1000 / Abs(fps) && (r.value < 0 <==> fps < 0 && fps >= -1000)
    ensures fps > 0 ==> r == Ok(1000 / fps)
  {
    if fps == 0 then Err(ZeroDivisionError) else Ok(TruncDiv(1000, fps))
  }

  lemma DefaultMsPerFrame()
    ensures MsPerFrame(DEFAULT_FPS) == Ok(33)
  {
  }

  /** The frame rate a Twinkly tag is built with: the parsed attribute, 30
      when absent, and 30 when it does not parse as an integer. */
  lemma TwinklyFps(serial: nat, id: string, name: Value, desc: Value, attrs: Attributes)
    requires "pattern" in attrs
    ensures var r := Construct(TwinklyTag, serial, id, name, desc, attrs);
      ("fps" !in attrs ==> r.Ok? && r.value.kind == Twinkly(attrs["pattern"], DEFAULT_FPS))
      && (("fps" in attrs && attrs["fps"].VStr? && ParseInt(attrs["fps"].s).None?)
          ==> r.Ok? && r.value.kind.fps == DEFAULT_FPS)
      && ("fps" in attrs && attrs["fps"].VInt? ==> r.Ok? && r.value.kind.fps == attrs["fps"].i)
  {
  }

  /** A decoded API reply. */
  type Response = map<string, Value>

  /** The status code of a successful reply. */
  const CODE_OK: int := 1000

  /** Every listed key is present and not None. */
  predicate HasKeys(response: Response, keys: seq<string>) {
    forall i :: 0 <= i < |keys| ==> Get(response, keys[i]) != VNull
  }

  /** Scans the keys to verify, as the loop in `_try_network_operation` does. */
  function MissingKey(response: Response, keys: seq<string>): (r: bool)
    ensures r <==> !HasKeys(response, keys)
  {
    if |keys| == 0 then false
    else Get(response, keys[0]) == VNull || MissingKey(response, keys[1..])
  }

  /** `_try_network_operation`: a call that raised (None here), a reply
      whose code is not 1000, or one lacking a key to verify raises
      `NFCTagOperationError`; otherwise the reply is handed back untouched. */
  function TryNetworkOperation(response: Option<Response>, verifyKeys: seq<string>): (r: Result<Response>)
    ensures r.Ok? <==> response.Some? && Get(response.value, "code") == VInt(CODE_OK) && HasKeys(response.value, verifyKeys)
    ensures r.Ok? ==> r.value == response.value
    ensures r.Err? ==> r.error == OperationError
  {
    match response
    case None => Err(OperationError)
    case Some(resp) =>
      if Get(resp, "code") != VInt(CODE_OK) then Err(OperationError)
      else if MissingKey(resp, verifyKeys) then Err(OperationError)
      else Ok(resp)
  }

  /** A call on the control interface. */
  datatype Call =
    | GetDeviceInfo
    | SetMode(mode: string)
    | SetLedMovieFull
    | SetLedMovieConfig(msPerFrame: int, frames: Value, leds: int)

  /** What each of the five calls answers, in the order they are made. */
  datatype Replies = Replies(
    deviceInfo: Option<Response>,
    modeOff: Option<Response>,
    movieFull: Option<Response>,
    movieConfig: Option<Response>,
    modeMovie: Option<Response>)

  datatype Attempt = Attempt(calls: seq<Call>, outcome: Outcome)

  /** Prepends a call to the attempt that follows it. */
  function Then(call: Call, rest: Attempt): (r: Attempt)
    ensures r.calls == [call] + rest.calls && r.outcome == rest.outcome
  {
    Attempt([call] + rest.calls, rest.outcome)
  }

  /** The frame count: the one the device reported, or else the file size
      over the bytes per frame, `int(file_size / bytes_per_frame)`. */
  function FrameCount(reported: Value, fileSize: nat, leds: int): (r: Result<Value>)
    ensures reported != VNull ==> r == Ok(reported)
    ensures reported == VNull && leds == 0 ==> r == Err(ZeroDivisionError)
    ensures reported == VNull && leds > 0 ==> r == Ok(VInt(fileSize / (leds * 3)))
  {
    if reported != VNull then Ok(reported)
    else if leds * 3 == 0 then Err(ZeroDivisionError)
    else Ok(VInt(TruncDiv(fileSize, leds * 3)))
  }

  /** The last two calls: the movie configuration, then mode "movie". */
  function ConfigureAndPlay(ms: int, frames: Value, leds: int, replies: Replies): (r: Attempt)
    ensures 1 <= |r.calls| <= 2 && r.calls[0] == SetLedMovieConfig(ms, frames, leds)
    ensures r.outcome.Pass? ==> |r.calls| == 2
    ensures |r.calls| == 1 <==> TryNetworkOperation(replies.movieConfig, []).Err?
    ensures |r.calls| == 2 ==> r.calls[1] == SetMode("movie")
    ensures r.outcome.Fail? ==> r.outcome.error == OperationError
  {
    Then(SetLedMovieConfig(ms, frames, leds),
      if TryNetworkOperation(replies.movieConfig, []).Err? then Attempt([], Fail(OperationError))
      else Then(SetMode("movie"),
        if TryNetworkOperation(replies.modeMovie, []).Err? then Attempt([], Fail(OperationError))
        else Attempt([], Pass)))
  }

  /** Everything after the LED count is known: mode "off", the upload,
      the frame arithmetic, then configuration and playback. */
  function Upload(fps: int, fileSize: nat, leds: int, replies: Replies): (r: Attempt)
    ensures |r.calls| >= 1 && r.calls[0] == SetMode("off")
    ensures r.outcome.Pass? ==> |r.calls| == 4 && r.calls[1] == SetLedMovieFull && r.calls[3] == SetMode("movie")
  {
    Then(SetMode("off"),
      if TryNetworkOperation(replies.modeOff, []).Err? then Attempt([], Fail(OperationError))
      else Then(SetLedMovieFull,
        match TryNetworkOperation(replies.movieFull, [])
        case Err(e) => Attempt([], Fail(e))
        case Ok(full) =>
          match FrameCount(Get(full, "frames_number"), fileSize, leds)
          case Err(e) => Attempt([], Fail(e))
          case Ok(frames) =>
            match MsPerFrame(fps)
            case Err(e) => Attempt([], Fail(e))
            case Ok(ms) => ConfigureAndPlay(ms, frames, leds, replies)))
  }

  /** `_start_pattern`. The pattern is read first (a tag that is not a
      Twinkly tag has none), a missing pattern file ends the operation
      before any call, and an LED count that is not an integer is reported
      as an operation error. */
  function StartPattern(tag: Tag, patternFileSize: Option<nat>, replies: Replies): (r: Attempt)
    ensures !tag.kind.Twinkly? ==> r == Attempt([], Fail(AttributeError))
    ensures tag.kind.Twinkly? && patternFileSize.None? ==> r == Attempt([], Pass)
    ensures tag.kind.Twinkly? && patternFileSize.Some? ==> |r.calls| >= 1 && r.calls[0] == GetDeviceInfo
    ensures r.outcome.Pass? && patternFileSize.Some? ==>
              |r.calls| == 5 && r.calls[1] == SetMode("off") && r.calls[2] == SetLedMovieFull
              && r.calls[4] == SetMode("movie")
  {
    match tag.kind
    case Twinkly(_, fps) =>
      (match patternFileSize
       case None => Attempt([], Pass)
       case Some(size) =>
         Then(GetDeviceInfo,
           match TryNetworkOperation(replies.deviceInfo, ["number_of_led"])
           case Err(e) => Attempt([], Fail(e))
           case Ok(info) =>
             match ToInt(info["number_of_led"])
             case Err(ValueError) => Attempt([], Fail(OperationError))
             case Err(e) => Attempt([], Fail(e))
             case Ok(leds) => Upload(fps, size, leds, replies)))
    case _ => Attempt([], Fail(AttributeError))
  }

  /** An LED count that does not parse stops the upload after the first
      call, as an operation error. */
  lemma BadLedCountStops(tag: Tag, size: nat, replies: Replies, info: Response)
    requires tag.kind.Twinkly?
    requires replies.deviceInfo == Some(info)
    requires TryNetworkOperation(replies.deviceInfo, ["number_of_led"]).Ok?
    requires info["number_of_led"].VStr? && ParseInt(info["number_of_led"].s).None?
    ensures StartPattern(tag, Some(size), replies) == Attempt([GetDeviceInfo], Fail(OperationError))
  {
    assert HasKeys(info, ["number_of_led"]);
    assert Get(info, ["number_of_led"][0]) != VNull;
  }

  /** When every reply succeeds the five calls are made in order, and the
      movie is configured with the tag's frame time, the frame count (the
      device's, or the file size over three bytes per LED) and the LED
      count. */
  lemma SuccessfulUpload(tag: Tag, size: nat, replies: Replies, leds: nat, full: Response)
    requires tag.kind.Twinkly? && tag.kind.fps > 0 && leds > 0
    requires TryNetworkOperation(replies.deviceInfo, ["number_of_led"]).Ok?
    requires ToInt(replies.deviceInfo.value["number_of_led"]) == Ok(leds)
    requires TryNetworkOperation(replies.modeOff, []).Ok?
    requires replies.movieFull == Some(full) && TryNetworkOperation(replies.movieFull, []).Ok?
    requires TryNetworkOperation(replies.movieConfig, []).Ok?
    requires TryNetworkOperation(replies.modeMovie, []).Ok?
    ensures var frames := if Get(full, "frames_number") != VNull then Get(full, "frames_number")
                          else VInt(size / (leds * 3));
      StartPattern(tag, Some(size), replies)
      == Attempt([GetDeviceInfo, SetMode("off"), SetLedMovieFull,
                  SetLedMovieConfig(1000 / tag.kind.fps, frames, leds), SetMode("movie")], Pass)
  {
    var frames := if Get(full, "frames_number") != VNull then Get(full, "frames_number")
                  else VInt(size / (leds * 3));
    assert FrameCount(Get(full, "frames_number"), size, leds) == Ok(frames);
    assert MsPerFrame(tag.kind.fps) == Ok(1000 / tag.kind.fps);
  }
}
