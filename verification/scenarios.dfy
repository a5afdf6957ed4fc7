/** End-to-end behaviour: a packet from the portal is decoded, resolved to
    a tag, published, answered by a plugin, and turned into a pad colour by
    the main loop. */
module Scenarios {
  import opened Values
  import opened Colors
  import opened Codec
  import opened Tags
  import opened Bus
  import opened Plugins
  import opened MainLoop
  import WebhookPlugin
  import SpotifyPlugin

  /** A webhook tag placed on the portal: its pad fades to the plugin's
      success colour (PURPLE) when the post goes through, and flashes the
      error colour when it raises. */
  lemma WebhookAddLightsPad(cfg: Config, reg: Registry, s: LoopState, ev: TagEvent, postRaises: bool)
    requires Valid(s.manager)
    requires Resolve(reg, s.manager, ev.identifier).result.Ok?
    requires Resolve(reg, s.manager, ev.identifier).result.value.kind.Webhook?
    ensures var tag := Resolve(reg, s.manager, ev.identifier).result.value;
      var d := Delivery(WebhookPlugin.OnTagAdded(ev, tag, postRaises).published, None);
      var r := Iteration(cfg, reg, s, Some(ev), d);
      r.device == s.device + [if postRaises then FlashColor(ev.padNum, 8, 8, 4, ErrorColor(cfg))
                              else FadeColor(ev.padNum, 10, 1, PURPLE)]
  {
    var tag := Resolve(reg, s.manager, ev.identifier).result.value;
    var published := WebhookPlugin.OnTagAdded(ev, tag, postRaises).published;
    assert published == [if postRaises then AddError(ev) else AddSuccess(ev, Some(PURPLE))];
    assert HandleAll(cfg, published) == OnResponse(cfg, published[0]) + HandleAll(cfg, []);
  }

  /** A Spotify tag on any pad but the circle pad is refused: nothing is
      sent to the service, the playback registers are untouched, and the
      pad flashes the error colour. */
  lemma SpotifyOffCirclePadFlashes(cfg: Config, reg: Registry, s: LoopState, ev: TagEvent,
                                   playback: SpotifyPlugin.Playback, circlePad: int,
                                   client: SpotifyPlugin.Client, svc: SpotifyPlugin.Service)
    requires Valid(s.manager)
    requires Resolve(reg, s.manager, ev.identifier).result.Ok?
    requires Resolve(reg, s.manager, ev.identifier).result.value.kind.Spotify?
    requires ev.padNum != circlePad
    ensures var tag := Resolve(reg, s.manager, ev.identifier).result.value;
      var h := SpotifyPlugin.OnTagAdded(playback, circlePad, ev, tag, client, svc);
      var r := Iteration(cfg, reg, s, Some(ev), Delivery(h.published, None));
      h.requests == [] && h.state == playback
      && r.device == s.device + [FlashColor(ev.padNum, 8, 8, 4, ErrorColor(cfg))]
  {
    var tag := Resolve(reg, s.manager, ev.identifier).result.value;
    var published := SpotifyPlugin.OnTagAdded(playback, circlePad, ev, tag, client, svc).published;
    assert HandleAll(cfg, published) == OnResponse(cfg, published[0]) + HandleAll(cfg, []);
  }

  /** A Spotify tag placed on the circle pad that starts playing fades its
      pad to OFF, the colour every tag but an unknown one reports. */
  lemma SpotifyOnCirclePadFadesOff(cfg: Config, reg: Registry, s: LoopState, ev: TagEvent,
                                   playback: SpotifyPlugin.Playback, client: SpotifyPlugin.Client,
                                   svc: SpotifyPlugin.Service)
    requires Valid(s.manager)
    requires Resolve(reg, s.manager, ev.identifier).result.Ok?
    requires Resolve(reg, s.manager, ev.identifier).result.value.kind.Spotify?
    requires Resolve(reg, s.manager, ev.identifier).result.value.cls == SpotifyTag
    requires !ev.wasRemoved
    requires SpotifyPlugin.OnTagAdded(playback, ev.padNum, ev,
               Resolve(reg, s.manager, ev.identifier).result.value, client, svc).outcome.Pass?
    ensures var tag := Resolve(reg, s.manager, ev.identifier).result.value;
      var h := SpotifyPlugin.OnTagAdded(playback, ev.padNum, ev, tag, client, svc);
      var r := Iteration(cfg, reg, s, Some(ev), Delivery(h.published, None));
      h.state.active == Some(tag)
      && r.device == s.device + [FadeColor(ev.padNum, 10, 1, OFF)]
      && tag in r.active
  {
    var tag := Resolve(reg, s.manager, ev.identifier).result.value;
    var published := SpotifyPlugin.OnTagAdded(playback, ev.padNum, ev, tag, client, svc).published;
    assert PadColor(tag) == OFF;
    assert published == [AddSuccess(ev, Some(OFF))];
    assert HandleAll(cfg, published) == OnResponse(cfg, published[0]) + HandleAll(cfg, []);
  }

  /** A packet for an identifier the store does not know resolves to an
      unknown tag, which is cached and added to the active set. */
  lemma UnknownPacketIsTracked(cfg: Config, reg: Registry, s: LoopState, read: Option<seq<byte>>, d: Delivery)
    requires Valid(s.manager)
    requires DecodeTagEvent(read).Some? && !DecodeTagEvent(read).value.wasRemoved
    requires DecodeTagEvent(read).value.identifier !in s.manager.cache
    requires DecodeTagEvent(read).value.identifier !in s.manager.store
    ensures var id := DecodeTagEvent(read).value.identifier;
      var r := Iteration(cfg, reg, s, DecodeTagEvent(read), d);
      id in r.manager.cache && r.manager.cache[id].cls == UnknownTag
      && r.manager.cache[id] in r.active
      && r.bus[|s.bus|] == TagAdded(DecodeTagEvent(read).value, r.manager.cache[id])
  {
    var ev := DecodeTagEvent(read).value;
    BusRecordsTagEventFirst(cfg, reg, s, ev, d);
  }

  /** Each of the four publishers of the plugin base class, heard by the
      main loop, lights the event's pad: a successful add fades to the
      plugin's success colour, a successful removal to the idle colour, and
      either error flashes the error colour. */
  lemma DispatchedResponsesLightPad(cfg: Config, p: Plugin, ev: TagEvent)
    ensures HandleAll(cfg, DispatchAddSuccess(p, ev)) == [FadeColor(ev.padNum, 10, 1, p.successPadColor)]
    ensures HandleAll(cfg, DispatchRemoveSuccess(ev)) == [FadeColor(ev.padNum, 10, 1, IdleColor(cfg))]
    ensures HandleAll(cfg, DispatchAddError(ev)) == [FlashColor(ev.padNum, 8, 8, 4, ErrorColor(cfg))]
    ensures HandleAll(cfg, DispatchRemoveError(ev)) == [FlashColor(ev.padNum, 8, 8, 4, ErrorColor(cfg))]
  {
    ResponseFeedback(cfg, ev, Some(p.successPadColor));
    assert HandleAll(cfg, DispatchAddSuccess(p, ev)) == OnResponse(cfg, AddSuccess(ev, Some(p.successPadColor)));
    assert HandleAll(cfg, DispatchRemoveSuccess(ev)) == OnResponse(cfg, RemoveSuccess(ev));
    assert HandleAll(cfg, DispatchAddError(ev)) == OnResponse(cfg, AddError(ev));
    assert HandleAll(cfg, DispatchRemoveError(ev)) == OnResponse(cfg, RemoveError(ev));
  }

  /** With no colours configured, a plugin on the base class's success
      colour fades the pad PURPLE on an add, a removal fades it DIM, and an
      error flashes it RED. */
  lemma UnconfiguredFeedback(ev: TagEvent, allPad: int)
    ensures var cfg := Config(None, None, None, None, allPad);
      var p := NewPlugin(None).value;
      HandleAll(cfg, DispatchAddSuccess(p, ev)) == [FadeColor(ev.padNum, 10, 1, PURPLE)]
      && HandleAll(cfg, DispatchRemoveSuccess(ev)) == [FadeColor(ev.padNum, 10, 1, DIM)]
      && HandleAll(cfg, DispatchAddError(ev)) == [FlashColor(ev.padNum, 8, 8, 4, RED)]
  {
    var cfg := Config(None, None, None, None, allPad);
    ColorDefaults(cfg);
    DispatchedResponsesLightPad(cfg, NewPlugin(None).value, ev);
  }

  /** A plugin that keeps the base class's hooks answers nothing: the bus
      gains only the tag event and no pad command is sent. */
  lemma DefaultHooksOnlyRecordTheEvent(cfg: Config, reg: Registry, s: LoopState, ev: TagEvent)
    requires Valid(s.manager)
    requires Resolve(reg, s.manager, ev.identifier).result.Ok?
    ensures var tag := Resolve(reg, s.manager, ev.identifier).result.value;
      var r := Iteration(cfg, reg, s, Some(ev), Delivery(DefaultHook(ev, tag), None));
      r.device == s.device && r.bus == s.bus + [PublishTagEvent(ev, tag)]
  {
  }
}
