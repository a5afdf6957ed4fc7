/** The Spotify side of musicfig/plugins/spotify.py: the tag class, the
    guard and URI split in `spotcast`, `resume`, `pause`, the two playback
    registers (`active_tag`, `paused_tag`) and the circle-pad gate in the
    event listeners. What the Spotify service answers is an input; the
    requests the client sends are an output. */
module SpotifyPlugin {
  import opened Values
  import opened Colors
  import opened Codec
  import opened Tags
  import opened Bus

  const ONE_MINUTE_IN_MS: int := 60 * 1000

  /** The three things `_get_token_and_verify_active_and_configured` checks. */
  datatype Client = Client(activated: bool, configured: bool, hasToken: bool)

  predicate Ready(c: Client) {
    c.activated && c.configured && c.hasToken
  }

  /** The song `get_currently_playing` reports, with the playback position. */
  datatype NowPlaying = NowPlaying(durationMs: int, progressMs: int)

  /** How the service answers: whether starting or resuming playback
      succeeds (no HTTPError), whether pausing does, and what is playing
      afterwards. */
  datatype Service = Service(startSucceeds: bool, pauseSucceeds: bool, nowPlaying: Option<NowPlaying>)

  /** A playback request sent to the service. */
  datatype Request =
    | StartTracks(trackIds: seq<string>, positionMs: int)
    | StartContext(mediaType: string, mediaId: string)
    | ResumeRequest
    | DevicesRequest
    | PauseRequest

  /** A service call: the requests sent and what it returned (None for
      Python's None) or raised. */
  datatype Call = Call(requests: seq<Request>, result: Result<Option<int>>)

  /** `spotcast(spotify_uri, position_ms)`: returns an estimate of how long
      the started media plays. */
  function Spotcast(client: Client, uri: Value, positionMs: int, svc: Service): (r: Call)
    ensures !Ready(client) ==> r == Call([], Ok(None))
    ensures Ready(client) && !uri.VStr? ==> r == Call([], Err(AttributeError))
    ensures Ready(client) && uri.VStr? && |Split(uri.s, ':')| != 2 ==> r == Call([], Err(ValueError))
    ensures r.result.Err? ==> r.requests == []
    ensures r.requests != [] <==> Ready(client) && uri.VStr? && |Split(uri.s, ':')| == 2
    ensures r.requests != [] ==>
              var parts := Split(uri.s, ':');
              r.requests == [if parts[0] == "track" then StartTracks([parts[1]], positionMs)
                             else StartContext(parts[0], parts[1])]
              && r.result.Ok?
              && (!svc.startSucceeds <==> r.result.value.None?)
              && (svc.startSucceeds && parts[0] != "track" ==> r.result == Ok(Some(ONE_MINUTE_IN_MS)))
              && (svc.startSucceeds && parts[0] == "track" ==>
                    r.result == Ok(Some(if svc.nowPlaying.Some? then svc.nowPlaying.value.durationMs
                                        else ONE_MINUTE_IN_MS)))
  {
    if !Ready(client) then Call([], Ok(None))
    else match uri
      case VStr(s) =>
        var parts := Split(s, ':');
        if |parts| != 2 then Call([], Err(ValueError))
        else
          var mediaType, mediaId := parts[0], parts[1];
          var request := if mediaType == "track" then StartTracks([mediaId], positionMs)
                         else StartContext(mediaType, mediaId);
          if !svc.startSucceeds then Call([request], Ok(None))
          else if mediaType != "track" then Call([request], Ok(Some(ONE_MINUTE_IN_MS)))
          else (match svc.nowPlaying
            case None => Call([request], Ok(Some(ONE_MINUTE_IN_MS)))
            case Some(song) => Call([request], Ok(Some(song.durationMs))))
      case _ => Call([], Err(AttributeError))
  }

  /** `resume`: the time left in the song; a service error yields one
      minute (after the available devices are listed), but nothing playing
      after a successful resume leaves `song` None and reading its duration
      raises. */
  function Resume(client: Client, svc: Service): (r: Call)
    ensures !Ready(client) ==> r == Call([], Ok(None))
    ensures Ready(client) ==> |r.requests| >= 1 && r.requests[0] == ResumeRequest
    ensures Ready(client) && !svc.startSucceeds ==>
              r == Call([ResumeRequest, DevicesRequest], Ok(Some(ONE_MINUTE_IN_MS)))
    ensures Ready(client) && svc.startSucceeds ==> r.requests == [ResumeRequest]
    ensures Ready(client) && svc.startSucceeds ==>
              (r.result.Err? <==> svc.nowPlaying.None?)
              && (r.result.Err? ==> r.result.error == AttributeError)
              && (svc.nowPlaying.Some? ==>
                    r.result == Ok(Some(svc.nowPlaying.value.durationMs - svc.nowPlaying.value.progressMs)))
  {
    if !Ready(client) then Call([], Ok(None))
    else if !svc.startSucceeds then Call([ResumeRequest, DevicesRequest], Ok(Some(ONE_MINUTE_IN_MS)))
    else match svc.nowPlaying
      case None => Call([ResumeRequest], Err(AttributeError))
      case Some(song) => Call([ResumeRequest], Ok(Some(song.durationMs - song.progressMs)))
  }

  /** `pause`: a ready client sends one pause request; a service error is
      logged and swallowed, so the call returns None whatever the service
      answers. */
  function Pause(client: Client, svc: Service): (r: Call)
    ensures r.result == Ok(None)
    ensures r.requests == (if Ready(client) then [PauseRequest] else [])
  {
    if !Ready(client) then Call([], Ok(None))
    else if svc.pauseSucceeds then Call([PauseRequest], Ok(None))
    else Call([PauseRequest], Ok(None))   // HTTPError caught and logged
  }

  /** Whether the pause goes through makes no difference to the caller. */
  lemma PauseSwallowsServiceError(client: Client, svc: Service)
    ensures Pause(client, svc) == Pause(client, svc.(pauseSucceeds := !svc.pauseSucceeds))
  {
  }

  /** The two playback registers. */
  datatype Playback = Playback(active: Option<Tag>, paused: Option<Tag>)

  datatype Step = Step(state: Playback, requests: seq<Request>, outcome: Outcome)

  /** `start_playback_from_tag`: the paused tag is resumed (and stays the
      paused tag); any other tag is cast and the paused tag forgotten. Either
      way the tag becomes active, unless the service call raised. */
  function StartPlayback(s: Playback, tag: Tag, client: Client, svc: Service): (r: Step)
    requires tag.kind.Spotify?
    ensures r.outcome.Pass? ==> r.state.active == Some(tag)
    ensures r.outcome.Fail? ==> r.state == s
    ensures s.paused == Some(tag) ==>
              r.requests == Resume(client, svc).requests && (r.outcome.Pass? ==> r.state.paused == s.paused)
    ensures s.paused != Some(tag) ==>
              r.requests == Spotcast(client, tag.kind.spotifyUri, tag.kind.startPositionMs, svc).requests
              && (r.outcome.Pass? ==> r.state.paused == None)
  {
    if s.paused == Some(tag) then
      var call := Resume(client, svc);
      if call.result.Err? then Step(s, call.requests, Fail(call.result.error))
      else Step(s.(active := Some(tag)), call.requests, Pass)
    else
      var call := Spotcast(client, tag.kind.spotifyUri, tag.kind.startPositionMs, svc);
      if call.result.Err? then Step(s, call.requests, Fail(call.result.error))
      else Step(Playback(Some(tag), None), call.requests, Pass)
  }

  /** `pause_playback_from_tag`: with nothing active only the paused
      register is cleared and no pause is sent; otherwise the active tag is
      paused and moves to the paused register. The given tag is only
      compared for a warning. Nothing is active afterwards. */
  function PausePlayback(s: Playback, tag: Tag, client: Client, svc: Service): (r: Step)
    ensures r.state.active == None && r.outcome == Pass
    ensures s.active.None? ==> r.state.paused == None && r.requests == []
    ensures s.active.Some? ==> r.state.paused == s.active && r.requests == Pause(client, svc).requests
  {
    if s.active.None? then Step(Playback(None, None), [], Pass)
    else
      var call := Pause(client, svc);
      Step(Playback(None, s.active), call.requests, Pass)
  }

  datatype Handled = Handled(state: Playback, requests: seq<Request>, published: seq<Event>, outcome: Outcome)

  /** `on_tag_added`. Off the circle pad the tag is refused; on it playback
      starts and success is reported with the tag's pad colour whatever the
      cast returned. An exception from the service call propagates. */
  function OnTagAdded(s: Playback, circlePad: int, ev: TagEvent, tag: Tag, client: Client, svc: Service): (r: Handled)
    ensures !tag.kind.Spotify? ==> r == Handled(s, [], [], Pass)
    ensures tag.kind.Spotify? && ev.padNum != circlePad ==> r == Handled(s, [], [AddError(ev)], Pass)
    ensures tag.kind.Spotify? && ev.padNum == circlePad ==>
              var step := StartPlayback(s, tag, client, svc);
              r.state == step.state && r.requests == step.requests && r.outcome == step.outcome
              && (step.outcome.Pass? ==> r.published == [AddSuccess(ev, Some(PadColor(tag)))])
              && (step.outcome.Fail? ==> r.published == [])
  {
    if !tag.kind.Spotify? then Handled(s, [], [], Pass)
    else if ev.padNum != circlePad then Handled(s, [], [AddError(ev)], Pass)
    else
      var step := StartPlayback(s, tag, client, svc);
      if step.outcome.Fail? then Handled(step.state, step.requests, [], step.outcome)
      else Handled(step.state, step.requests, [AddSuccess(ev, Some(PadColor(tag)))], Pass)
  }

  /** `on_tag_removed`: acts only for a Spotify tag on the circle pad. */
  function OnTagRemoved(s: Playback, circlePad: int, ev: TagEvent, tag: Tag, client: Client, svc: Service): (r: Handled)
    ensures !tag.kind.Spotify? || ev.padNum != circlePad ==> r == Handled(s, [], [], Pass)
    ensures tag.kind.Spotify? && ev.padNum == circlePad ==>
              r.state == PausePlayback(s, tag, client, svc).state
              && r.requests == PausePlayback(s, tag, client, svc).requests
              && r.published == [RemoveSuccess(ev)] && r.outcome == Pass
  {
    if !tag.kind.Spotify? || ev.padNum != circlePad then Handled(s, [], [], Pass)
    else
      var step := PausePlayback(s, tag, client, svc);
      Handled(step.state, step.requests, [RemoveSuccess(ev)], Pass)
  }

  /** The Spotify tag class reports the default pad colour, so a successful
      add fades the pad to OFF. */
  lemma SpotifySuccessColor(s: Playback, circlePad: int, ev: TagEvent, tag: Tag, client: Client, svc: Service)
    requires tag.cls == SpotifyTag
    requires OnTagAdded(s, circlePad, ev, tag, client, svc).published != []
    ensures tag.kind.Spotify? ==>
      OnTagAdded(s, circlePad, ev, tag, client, svc).published == [AddError(ev)]
      || OnTagAdded(s, circlePad, ev, tag, client, svc).published == [AddSuccess(ev, Some(OFF))]
  {
  }

  /** Lifting the active tag off the circle pad and putting it back resumes
      it instead of casting it again; it ends up both active and paused.
      The pause goes out whether or not the service accepts it. */
  lemma RemoveThenReAddResumes(s: Playback, circlePad: int, ev: TagEvent, tag: Tag,
                               client: Client, svc: Service)
    requires tag.kind.Spotify? && ev.padNum == circlePad && s.active == Some(tag)
    requires Ready(client)
    ensures var removed := OnTagRemoved(s, circlePad, ev, tag, client, svc);
      var added := OnTagAdded(removed.state, circlePad, ev, tag, client, svc);
      removed.requests == [PauseRequest] && removed.outcome == Pass
      && added.requests == Resume(client, svc).requests && added.requests[0] == ResumeRequest
      && (added.outcome.Pass? ==> added.state == Playback(Some(tag), Some(tag)))
  {
  }

  predicate NoColon(s: string) {
    forall i :: 0 <= i < |s| ==> s[i] != ':'
  }

  /** `spotcast` undoes the "type:id" format of a tag's URI: a track id is
      started as a one-track list from the tag's position, anything else as
      a context of that type. */
  lemma SpotcastSplitsUri(client: Client, mediaType: string, mediaId: string, positionMs: int, svc: Service)
    requires Ready(client) && NoColon(mediaType) && NoColon(mediaId)
    ensures var r := Spotcast(client, VStr(mediaType + ":" + mediaId), positionMs, svc);
      r.requests == [if mediaType == "track" then StartTracks([mediaId], positionMs)
                     else StartContext(mediaType, mediaId)]
      && r.result.Ok?
  {
    SplitAfterField(mediaType, ':', mediaId);
    SplitNoSeparator(mediaId, ':');
    assert mediaType + [':'] + mediaId == mediaType + ":" + mediaId;
  }

  /** A full "spotify:type:id" URI has three fields, so the unpacking raises
      ValueError and nothing is sent. */
  lemma PrefixedUriRejected(client: Client, mediaType: string, mediaId: string, positionMs: int, svc: Service)
    requires Ready(client) && NoColon(mediaType) && NoColon(mediaId)
    ensures Spotcast(client, VStr("spotify:" + mediaType + ":" + mediaId), positionMs, svc) == Call([], Err(ValueError))
  {
    SplitAfterField("spotify", ':', mediaType + ":" + mediaId);
    SplitAfterField(mediaType, ':', mediaId);
    SplitNoSeparator(mediaId, ':');
    assert "spotify:" + mediaType + ":" + mediaId == "spotify" + [':'] + (mediaType + [':'] + mediaId);
    assert mediaType + ":" + mediaId == mediaType + [':'] + mediaId;
  }

  /** Against the same song, casting a track reports its whole duration and
      resuming reports what is left of it: the two differ by the playback
      position. */
  lemma ResumeReportsRestOfCast(client: Client, trackId: string, positionMs: int, svc: Service, song: NowPlaying)
    requires Ready(client) && NoColon(trackId)
    requires svc.startSucceeds && svc.nowPlaying == Some(song)
    ensures Spotcast(client, VStr("track:" + trackId), positionMs, svc).result == Ok(Some(song.durationMs))
    ensures Resume(client, svc).result == Ok(Some(song.durationMs - song.progressMs))
    ensures Resume(client, svc).result.value.value + song.progressMs
            == Spotcast(client, VStr("track:" + trackId), positionMs, svc).result.value.value
  {
    SpotcastSplitsUri(client, "track", trackId, positionMs, svc);
    assert "track:" + trackId == "track" + ":" + trackId;
  }

  /** A new tag on the circle pad replaces whatever was playing or paused. */
  lemma NewTagForgetsPaused(s: Playback, tag: Tag, client: Client, svc: Service)
    requires tag.kind.Spotify? && s.paused != Some(tag)
    ensures var r := StartPlayback(s, tag, client, svc);
      r.outcome.Pass? ==> r.state == Playback(Some(tag), None)
  {
  }

  /** The start position a Spotify tag is built with: the parsed attribute,
      0 when absent, and 0 when it does not parse as an integer. */
  lemma SpotifyStartPosition(serial: nat, id: string, name: Value, desc: Value, attrs: Attributes)
    requires "spotify_uri" in attrs
    ensures var r := Construct(SpotifyTag, serial, id, name, desc, attrs);
      ("start_position_ms" !in attrs ==> r.Ok? && r.value.kind == Spotify(attrs["spotify_uri"], 0))
      && (("start_position_ms" in attrs && attrs["start_position_ms"].VStr?
           && ParseInt(attrs["start_position_ms"].s).None?) ==> r.Ok? && r.value.kind.startPositionMs == 0)
      && ("start_position_ms" in attrs && attrs["start_position_ms"].VInt? ==>
            r.Ok? && r.value.kind.startPositionMs == attrs["start_position_ms"].i)
  {
  }
}
