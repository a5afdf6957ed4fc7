/** `BasePlugin` (musicfig/plugins/base.py): the constructor's class check,
    how a plugin wires itself into the application, the configuration
    lookup that fails loudly, and the four response publishers. */
module Plugins {
  import opened Values
  import opened Colors
  import opened Codec
  import opened Tags
  import opened Bus

  /** A class object handed to the constructor: an `NFCTag` subclass or
      some other class. */
  datatype PyClass = NfcTagSubclass(cls: TagClass) | OtherClass(name: string)

  /** A plugin: the tag class it brings (if any) and the colour
      `_get_success_pad_color` answers, which subclasses may override. */
  datatype Plugin = Plugin(tagClass: Option<TagClass>, successPadColor: Color)

  /** The colour the base class reports on a successful add. */
  const DEFAULT_SUCCESS_PAD_COLOR: Color := PURPLE

  /** `BasePlugin.__init__`: None or an `NFCTag` subclass is accepted, any
      other class is an ArgumentError. */
  function NewPlugin(tagClass: Option<PyClass>): (r: Result<Plugin>)
    ensures r.Ok? <==> tagClass.None? || tagClass.value.NfcTagSubclass?
    ensures r.Err? ==> r.error == ArgumentError
    ensures r.Ok? ==> r.value.successPadColor == DEFAULT_SUCCESS_PAD_COLOR
    ensures r.Ok? && tagClass.None? ==> r.value.tagClass.None?
    ensures r.Ok? && tagClass.Some? ==> r.value.tagClass == Some(tagClass.value.cls)
  {
    match tagClass
    case None => Ok(Plugin(None, DEFAULT_SUCCESS_PAD_COLOR))
    case Some(NfcTagSubclass(c)) => Ok(Plugin(Some(c), DEFAULT_SUCCESS_PAD_COLOR))
    case Some(OtherClass(_)) => Err(ArgumentError)
  }

  /** `register_tag_class`: the plugin's class becomes selectable under its
      friendly name; a plugin without one leaves the registry alone. */
  function RegisterTagClass(p: Plugin, reg: Registry): (r: Registry)
    ensures p.tagClass.None? ==> r == reg
    ensures p.tagClass.Some? ==> ClassFor(r, VStr(FriendlyName(p.tagClass.value))) == Ok(p.tagClass.value)
    ensures forall k :: k in reg && (p.tagClass.None? || k != FriendlyName(p.tagClass.value)) ==> k in r && r[k] == reg[k]
  {
    match p.tagClass
    case None => reg
    case Some(c) => Register(reg, c)
  }

  /** The hooks a plugin can subscribe. */
  datatype Hook = OnTagAdded | OnTagRemoved

  datatype Subscription = Subscription(topic: string, hook: Hook)

  /** The application-wide state a plugin's `init_app` touches. */
  datatype Wiring = Wiring(subscriptions: seq<Subscription>, registry: Registry)

  /** `init_app`: `register_event_listeners` subscribes the two hooks to the
      two tag topics, then `register_tag_class` runs. */
  function InitApp(p: Plugin, w: Wiring): (r: Wiring)
    ensures |r.subscriptions| == |w.subscriptions| + 2
    ensures r.subscriptions[..|w.subscriptions|] == w.subscriptions
    ensures r.subscriptions[|w.subscriptions|] == Subscription(TAG_ADDED, OnTagAdded)
    ensures r.subscriptions[|w.subscriptions| + 1] == Subscription(TAG_REMOVED, OnTagRemoved)
    ensures r.registry == RegisterTagClass(p, w.registry)
  {
    Wiring(w.subscriptions + [Subscription(TAG_ADDED, OnTagAdded), Subscription(TAG_REMOVED, OnTagRemoved)],
           RegisterTagClass(p, w.registry))
  }

  type AppConfig = map<string, Value>

  /** `_get_from_config_or_fail`: a key that is missing or set to None is a
      PluginError naming the key. */
  function ConfigGetOrFail(config: AppConfig, key: string): (r: Result<Value>)
    ensures r.Ok? <==> key in config && config[key] != VNull
    ensures r.Ok? ==> r.value == config[key]
    ensures r.Err? ==> r.error == PluginError(key)
  {
    var v := Get(config, key);
    if v == VNull then Err(PluginError(key)) else Ok(v)
  }

  /** `dispatch_add_success_event`: one publication on the add-success topic
      with the plugin's success colour. */
  function DispatchAddSuccess(p: Plugin, ev: TagEvent): (published: seq<Event>)
    ensures |published| == 1 && Topic(published[0]) == ADD_SUCCESS
    ensures published[0] == AddSuccess(ev, Some(p.successPadColor))
  {
    [AddSuccess(ev, Some(p.successPadColor))]
  }

  /** `dispatch_add_error_event`: one publication carrying only the event. */
  function DispatchAddError(ev: TagEvent): (published: seq<Event>)
    ensures |published| == 1 && Topic(published[0]) == ADD_ERROR && published[0].ev == ev
  {
    [AddError(ev)]
  }

  /** `dispatch_remove_success_event`. */
  function DispatchRemoveSuccess(ev: TagEvent): (published: seq<Event>)
    ensures |published| == 1 && Topic(published[0]) == REMOVE_SUCCESS && published[0].ev == ev
  {
    [RemoveSuccess(ev)]
  }

  /** `dispatch_remove_error_event`. */
  function DispatchRemoveError(ev: TagEvent): (published: seq<Event>)
    ensures |published| == 1 && Topic(published[0]) == REMOVE_ERROR && published[0].ev == ev
  {
    [RemoveError(ev)]
  }

  /** The base `on_tag_added` / `on_tag_removed`: nothing is published. */
  function DefaultHook(ev: TagEvent, tag: Tag): (published: seq<Event>)
    ensures forall e :: e !in published
  {
    []
  }

  /** A plugin built with a tag class, once initialised, both listens to the
      tag topics and makes its class resolvable from a record naming it. */
  lemma InitAppRegistersAndSubscribes(c: TagClass, w: Wiring)
    ensures var p := NewPlugin(Some(NfcTagSubclass(c)));
      p.Ok?
      && var r := InitApp(p.value, w);
      Subscription(TAG_ADDED, OnTagAdded) in r.subscriptions
      && Subscription(TAG_REMOVED, OnTagRemoved) in r.subscriptions
      && ClassFor(r.registry, VStr(FriendlyName(c))) == Ok(c)
  {
    var r := InitApp(NewPlugin(Some(NfcTagSubclass(c))).value, w);
    assert r.subscriptions[|w.subscriptions|] == Subscription(TAG_ADDED, OnTagAdded);
    assert r.subscriptions[|w.subscriptions| + 1] == Subscription(TAG_REMOVED, OnTagRemoved);
  }
}
