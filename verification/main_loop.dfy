/** `MainLoop` (musicfig/main.py): polls the portal for tag events,
    resolves each to a tag, tracks the tags currently on the portal,
    publishes the tag event, and turns the handlers' responses into pad
    colours.

    The portal is an append-only log of commands and the bus an
    append-only log of events. What the subscribers do with a tag event is
    an input (`Delivery`): the responses they publish while it is being
    delivered, and the exception one of them raised, if any. */
module MainLoop {
  import opened Values
  import opened Colors
  import opened Codec
  import opened Tags
  import opened Bus

  /** The colour settings read from the application config (None when the
      key is absent) and the pad number that addresses every pad. */
  datatype Config = Config(
    idle: Option<Color>,
    error: Option<Color>,
    active: Option<Color>,
    thinking: Option<Color>,
    allPad: int)

  function IdleColor(cfg: Config): Color { cfg.idle.GetOr(DIM) }
  function ErrorColor(cfg: Config): Color { cfg.error.GetOr(RED) }
  function DefaultActiveColor(cfg: Config): Color { cfg.active.GetOr(BLUE) }
  function ThinkingColor(cfg: Config): Color { cfg.thinking.GetOr(PURPLE) }

  /** With nothing configured the loop idles DIM, reports errors RED,
      marks success BLUE and thinks PURPLE; a configured colour wins. */
  lemma ColorDefaults(cfg: Config)
    ensures IdleColor(cfg) == (if cfg.idle.Some? then cfg.idle.value else DIM)
    ensures ErrorColor(cfg) == (if cfg.error.Some? then cfg.error.value else RED)
    ensures DefaultActiveColor(cfg) == (if cfg.active.Some? then cfg.active.value else BLUE)
    ensures ThinkingColor(cfg) == (if cfg.thinking.Some? then cfg.thinking.value else PURPLE)
  {
  }

  datatype LoopState = LoopState(
    active: set<Tag>,          // current_active_tags
    doLoop: bool,              // do_loop
    device: seq<Command>,      // every command sent to the portal
    bus: seq<Event>,           // every event published
    manager: Manager,          // the tag manager and its cache
    crashed: Option<Error>)    // an exception `run` did not catch, ending the thread

  /** `MainLoop.__init__`. */
  function NewLoop(m: Manager): (s: LoopState)
    ensures s.active == {} && s.doLoop
    ensures s.device == [] && s.bus == [] && s.manager == m && s.crashed.None?
  {
    LoopState({}, true, [], [], m, None)
  }

  /** `stop_loop`. */
  function StopLoop(s: LoopState): (r: LoopState)
    ensures !r.doLoop && r.(doLoop := s.doLoop) == s
  {
    s.(doLoop := false)
  }

  /** `update_active_tags`: the tag is in the set afterwards exactly when
      the event was not a removal; no other member changes. */
  function UpdateActiveTags(active: set<Tag>, ev: TagEvent, tag: Tag): (r: set<Tag>)
    ensures tag in r <==> !ev.wasRemoved
    ensures forall t :: t != tag ==> (t in r <==> t in active)
  {
    if ev.wasRemoved then active - {tag} else active + {tag}
  }

  /** Adding a tag already present, or removing one that is absent, changes
      nothing; in particular removing an absent tag is not an error. */
  lemma UpdateActiveTagsIsSetLike(active: set<Tag>, ev: TagEvent, tag: Tag)
    ensures UpdateActiveTags(UpdateActiveTags(active, ev, tag), ev, tag) == UpdateActiveTags(active, ev, tag)
    ensures ev.wasRemoved && tag !in active ==> UpdateActiveTags(active, ev, tag) == active
    ensures !ev.wasRemoved && tag in active ==> UpdateActiveTags(active, ev, tag) == active
  {
  }

  /** `publish_tag_event`: the topic is "tag.removed" exactly for removals,
      and the payload is the event and tag untouched. */
  function PublishTagEvent(ev: TagEvent, tag: Tag): (e: Event)
    ensures Topic(e) == TAG_REMOVED <==> ev.wasRemoved
    ensures Topic(e) == TAG_ADDED <==> !ev.wasRemoved
    ensures e.ev == ev && e.tag == tag
  {
    if ev.wasRemoved then TagRemoved(ev, tag) else TagAdded(ev, tag)
  }

  /** `error_flash`. */
  function ErrorFlash(cfg: Config, pad: int): Command {
    FlashColor(pad, 8, 8, 4, ErrorColor(cfg))
  }

  /** The four `handler_response` subscribers. The loop does not listen to
      the tag topics it publishes itself. */
  function OnResponse(cfg: Config, e: Event): (cmds: seq<Command>)
    ensures IsResponse(e) <==> |cmds| == 1
    ensures !IsResponse(e) ==> cmds == []
    ensures IsResponse(e) ==> cmds[0].pad == e.ev.padNum
  {
    match e
    case AddSuccess(ev, color) =>
      [FadeColor(ev.padNum, 10, 1, if color.Some? then color.value else DefaultActiveColor(cfg))]
    case RemoveSuccess(ev) => [FadeColor(ev.padNum, 10, 1, IdleColor(cfg))]
    case AddError(ev) => [ErrorFlash(cfg, ev.padNum)]
    case RemoveError(ev) => [ErrorFlash(cfg, ev.padNum)]
    case _ => []
  }

  /** What each response does to its pad: a successful add fades (once, over
      10) to the colour given or the default active colour, a successful
      removal fades to the idle colour, and either error flashes the error
      colour (8 on, 8 off, 4 times). */
  lemma ResponseFeedback(cfg: Config, ev: TagEvent, color: Option<Color>)
    ensures OnResponse(cfg, AddSuccess(ev, color)) == [FadeColor(ev.padNum, 10, 1, color.GetOr(DefaultActiveColor(cfg)))]
    ensures OnResponse(cfg, RemoveSuccess(ev)) == [FadeColor(ev.padNum, 10, 1, IdleColor(cfg))]
    ensures OnResponse(cfg, AddError(ev)) == OnResponse(cfg, RemoveError(ev))
               == [FlashColor(ev.padNum, 8, 8, 4, ErrorColor(cfg))]
  {
  }

  /** The commands for a run of responses, in publication order. */
  function HandleAll(cfg: Config, responses: seq<Event>): (cmds: seq<Command>)
    ensures (forall i :: 0 <= i < |responses| ==> IsResponse(responses[i])) ==>
              |cmds| == |responses|
              && forall i :: 0 <= i < |responses| ==> [cmds[i]] == OnResponse(cfg, responses[i])
  {
    if |responses| == 0 then []
    else OnResponse(cfg, responses[0]) + HandleAll(cfg, responses[1..])
  }

  /** What the subscribers did while a tag event was being delivered. */
  datatype Delivery = Delivery(responses: seq<Event>, raised: Option<Error>)

  /** `except Exception` in `run`: `NFCTagOperationError` and `PluginError`
      derive from `BaseException` and get past it. */
  predicate CaughtByLoop(e: Error) {
    !(e.OperationError? || e.PluginError?)
  }

  /** One pass of the `while` body, after `get_tag_event` returned `polled`. */
  function Iteration(cfg: Config, reg: Registry, s: LoopState, polled: Option<TagEvent>, d: Delivery): (r: LoopState)
    requires Valid(s.manager)
    ensures Valid(r.manager)
    ensures r.doLoop == s.doLoop
    ensures s.device <= r.device && s.bus <= r.bus
    ensures polled.None? ==> r == s
    ensures polled.Some? && Resolve(reg, s.manager, polled.value.identifier).result.Err? ==>
              r == s.(device := s.device + [ErrorFlash(cfg, polled.value.padNum)])
    ensures polled.Some? && Resolve(reg, s.manager, polled.value.identifier).result.Ok? ==>
              var res := Resolve(reg, s.manager, polled.value.identifier);
              r.manager == res.manager
              && r.active == UpdateActiveTags(s.active, polled.value, res.result.value)
              && r.bus == s.bus + [PublishTagEvent(polled.value, res.result.value)] + d.responses
              && s.device + HandleAll(cfg, d.responses) <= r.device
              && (d.raised.None? ==> r.device == s.device + HandleAll(cfg, d.responses) && r.crashed == s.crashed)
  {
    match polled
    case None => s
    case Some(ev) =>
      var res := Resolve(reg, s.manager, ev.identifier);
      match res.result
      case Err(_) => s.(device := s.device + [ErrorFlash(cfg, ev.padNum)])
      case Ok(tag) =>
        var delivered := s.(
          manager := res.manager,
          active := UpdateActiveTags(s.active, ev, tag),
          bus := s.bus + [PublishTagEvent(ev, tag)] + d.responses,
          device := s.device + HandleAll(cfg, d.responses));
        match d.raised
        case None => delivered
        case Some(e) =>
          if CaughtByLoop(e) then delivered.(device := delivered.device + [ErrorFlash(cfg, ev.padNum)])
          else delivered.(crashed := Some(e))
  }

  /** A subscriber's ordinary exception ends with an error flash on the
      event's pad; one derived only from `BaseException` ends the thread. */
  lemma RaisedDuringDelivery(cfg: Config, reg: Registry, s: LoopState, ev: TagEvent, d: Delivery)
    requires Valid(s.manager)
    requires Resolve(reg, s.manager, ev.identifier).result.Ok? && d.raised.Some?
    ensures var r := Iteration(cfg, reg, s, Some(ev), d);
      (CaughtByLoop(d.raised.value) ==> r.crashed == s.crashed && r.device[|r.device| - 1] == ErrorFlash(cfg, ev.padNum))
      && (!CaughtByLoop(d.raised.value) ==> r.crashed == Some(d.raised.value))
  {
  }

  /** What happens between two checks of `do_loop`: a poll of the portal,
      or another thread calling `stop_loop`. */
  datatype Tick = Poll(read: Option<seq<byte>>, delivery: Delivery) | Stop

  /** The `while self.do_loop` loop over the ticks it is given. */
  function RunLoop(cfg: Config, reg: Registry, s: LoopState, ticks: seq<Tick>): (r: LoopState)
    requires Valid(s.manager)
    ensures Valid(r.manager)
    ensures s.device <= r.device && s.bus <= r.bus
    ensures !s.doLoop || s.crashed.Some? ==> r == s
    decreases |ticks|
  {
    if !s.doLoop || s.crashed.Some? || |ticks| == 0 then s
    else match ticks[0]
      case Stop => RunLoop(cfg, reg, StopLoop(s), ticks[1..])
      case Poll(read, d) => RunLoop(cfg, reg, Iteration(cfg, reg, s, DecodeTagEvent(read), d), ticks[1..])
  }

  /** `run`: all pads are set to the idle colour, then the loop runs. */
  function Run(cfg: Config, reg: Registry, m: Manager, ticks: seq<Tick>): (r: LoopState)
    requires Valid(m)
    ensures |r.device| >= 1 && r.device[0] == ChangeColor(cfg.allPad, IdleColor(cfg))
    ensures Valid(r.manager)
  {
    var s := NewLoop(m).(device := [ChangeColor(cfg.allPad, IdleColor(cfg))]);
    RunLoop(cfg, reg, s, ticks)
  }

  /** After `stop_loop` no further iteration starts, whatever the portal
      would have reported. */
  lemma StopEndsRun(cfg: Config, reg: Registry, s: LoopState, rest: seq<Tick>)
    requires Valid(s.manager) && s.doLoop && s.crashed.None?
    ensures RunLoop(cfg, reg, s, [Stop] + rest) == StopLoop(s)
  {
    assert ([Stop] + rest)[1..] == rest;
  }

  /** A poll that yields no event changes nothing. */
  lemma NoEventNoChange(cfg: Config, reg: Registry, s: LoopState, read: Option<seq<byte>>, d: Delivery, rest: seq<Tick>)
    requires Valid(s.manager) && s.doLoop && s.crashed.None?
    requires DecodeTagEvent(read).None?
    ensures RunLoop(cfg, reg, s, [Poll(read, d)] + rest) == RunLoop(cfg, reg, s, rest)
  {
    assert ([Poll(read, d)] + rest)[1..] == rest;
  }

  /** A tag that cannot be resolved leaves the active set, the bus and the
      cache alone and adds exactly one error flash for its pad. */
  lemma ResolutionFailureOnlyFlashes(cfg: Config, reg: Registry, s: LoopState, read: Option<seq<byte>>, d: Delivery)
    requires Valid(s.manager)
    requires DecodeTagEvent(read).Some?
    requires Resolve(reg, s.manager, DecodeTagEvent(read).value.identifier).result.Err?
    ensures var r := Iteration(cfg, reg, s, DecodeTagEvent(read), d);
      r.active == s.active && r.bus == s.bus && r.manager == s.manager
      && r.device == s.device + [FlashColor(DecodeTagEvent(read).value.padNum, 8, 8, 4, ErrorColor(cfg))]
  {
  }

  /** Each poll appends at most one tag event to the bus before the
      subscribers' responses, and the tag event always comes first. */
  lemma {:induction false} BusRecordsTagEventFirst(cfg: Config, reg: Registry, s: LoopState,
                                                    ev: TagEvent, d: Delivery)
    requires Valid(s.manager)
    requires Resolve(reg, s.manager, ev.identifier).result.Ok?
    ensures var r := Iteration(cfg, reg, s, Some(ev), d);
      |r.bus| == |s.bus| + 1 + |d.responses|
      && r.bus[|s.bus|] == PublishTagEvent(ev, Resolve(reg, s.manager, ev.identifier).result.value)
      && r.bus[|s.bus| + 1..] == d.responses
  {
    var r := Iteration(cfg, reg, s, Some(ev), d);
    var t := Resolve(reg, s.manager, ev.identifier).result.value;
    assert r.bus == s.bus + [PublishTagEvent(ev, t)] + d.responses;
  }
}
