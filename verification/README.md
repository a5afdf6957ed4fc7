# musicfig core, modelled in Dafny

musicfig turns a LEGO Dimensions toy portal into a jukebox controller. A
figure (an NFC tag) placed on one of the portal's pads is read by the
portal's USB protocol. The tag identifier is resolved to a tag definition and
the event is published on a publish/subscribe bus. Plugins (webhook, Spotify,
Twinkly lights) react to it and publish a success or error response. The main
loop turns that response into a pad colour.

This project models the pure core of that pipeline:

- `Codec` (musicfig/lego.py) covers the checksummed 32-byte command message,
  the three pad-colour commands and the inbound packet decoder with its hex
  identifier and `'000000'` stripping. A reader for the portal's frame format
  states the round trip.
- `LegacyCodec` (app/lego.py) covers the older driver's colon-delimited event
  string and how `Base.startLego` parses it and lights the pads. That driver's
  `send_command`, `switch_pad`, `fade_pad` and `flash_pad` (app/lego.py:45-75)
  are, byte for byte, those of the newer one, including the repeated green
  byte. `Codec.Message` and `Codec.Encode` model both.
- `Tags` (musicfig/nfc_tag.py, plus the tag classes the plugins define) covers:
  - required-attribute validation and the friendly-name and type strings;
  - the friendly-name → class registry;
  - the record store, and the manager that caches one tag object per
    identifier;
  - create and delete, turning file definitions into records, and the
    import-if-newer decision.
- `Bus` holds the topics and payloads exchanged on the bus.
- `Plugins` (musicfig/plugins/base.py) covers the plugin constructor,
  `init_app`, the configuration lookup and the four response publishers.
- `WebhookPlugin`, `SpotifyPlugin` and `TwinklyPlugin` model the decision
  logic of the three plugins. Network answers are inputs, and the requests
  made are outputs.
- `MainLoop` (musicfig/main.py) covers the active-tag set, the tag topic
  choice, the four response handlers, error flashing, `run` and `stop_loop`.
  The portal is an append-only command log and the bus an append-only
  event log.
- `Colors` (musicfig/colors.py) holds the palette on the portal's 0..100 scale.
- `Values` holds the Python semantics the code relies on: `dict.get`,
  `int()` on strings, `'%s' % n`, `str.split`, `str.replace`, `str.lower`,
  and `int(a / b)` as truncating division.
- `Scenarios` has end-to-end lemmas: packet → tag → plugin → pad colour.

Python object identity matters in two places. The loop keeps a `set` of tag
objects, and the Spotify plugin compares tags with `is`. Every tag the
manager builds therefore carries a fresh `serial`. Two tags are the same
object exactly when they are equal.

The two `except` clauses that guard the bus differ. `NFCTagOperationError`
(musicfig/nfc_tag.py:28) and `PluginError` derive from `BaseException`, so
`except Exception` in `run` does not catch them, and the loop thread ends.
The model keeps that distinction (`MainLoop.CaughtByLoop`).

## Model

| member | source | states |
|---|---|---|
| Values.ToInt | musicfig/plugins/spotify.py:57 | `int(v)`: an integer is kept; a string converts exactly when `ParseInt` reads it (surrounding whitespace as `str.isspace` knows it, an optional sign, ASCII digits with single underscores between them) and is a ValueError otherwise; None, lists and dictionaries are a TypeError |
| Values.UnderscoreBetweenDigits | musicfig/plugins/twinkly.py:25-28 | an underscore between two runs of digits leaves the number read unchanged, so `int("1_000") == 1000` |
| Values.MisplacedUnderscores | musicfig/plugins/twinkly.py:25-28 | a leading, trailing or doubled underscore is a ValueError |
| Values.UnderscoreExample | musicfig/plugins/spotify.py:56-60 | `"1_000"` reads as 1000 |
| Values.WhitespaceExample | musicfig/plugins/spotify.py:56-60 | a no-break space before the sign and a trailing newline are stripped, so `"\xa0-7\n"` reads as -7 |
| Values.IntToStringRoundTrip | app/lego.py:173 | parsing the decimal rendering of any integer gives the integer back |
| Values.TruncDiv | musicfig/plugins/twinkly.py:37 | quotient truncated toward zero: its magnitude is the quotient of the magnitudes and its sign is the product of the signs |
| Values.ReplaceAbsent | musicfig/nfc_tag.py:63 | replacing a pattern that does not occur leaves the string unchanged |
| Colors.RandomColor | musicfig/colors.py:17-18 | the random pick is always a member of the palette and on the 0..100 scale |
| Colors.ConstantsOnDeviceScale | musicfig/colors.py:3-13 | every named colour has all channels in 0..100; DIM, OFF and RED have their documented values |
| Colors.PaletteShape | musicfig/colors.py:15 | the palette has nine entries, every one a named colour, and contains neither OFF nor DIM |
| Codec.ChecksumIsSumModulo | musicfig/lego.py:90-95 | for a command made of bytes, the add-then-subtract-256 loop yields the byte sum modulo 256 |
| Codec.Message | musicfig/lego.py:90-98 | the message is the command, its checksum, then zeros up to 32 bytes; a longer command is not truncated; an empty command never binds the message and raises |
| Codec.SendCommand | musicfig/lego.py:90-98 | the loop with its running checksum and padding loop produces exactly the message definition |
| Codec.MessageShape | musicfig/lego.py:95-98 | a byte command of at most 31 bytes gives exactly 32 bytes, with the byte sum modulo 256 right after the command |
| Codec.EncodeIsByteCommand | musicfig/lego.py:120-177 | each builder emits only bytes, 8 to 11 of them, and byte 1 is the payload length |
| Codec.FrameRoundTrip | musicfig/lego.py:106-177 | every builder's 32-byte message is read back by the portal as the command given, except that a flash arrives with green where blue belongs |
| Codec.FlashDropsBlue | musicfig/lego.py:175-177 | a flash whose blue differs from its green does not arrive as sent |
| Codec.IntendedFrameRoundTrip | musicfig/lego.py:144-177 | with blue in the last colour byte every command arrives exactly as sent |
| Codec.Hex | musicfig/lego.py:195 | hexlify gives two lower-case hex digits per byte |
| Codec.HexRoundTrip | musicfig/lego.py:195 | reading the hex back gives the original bytes |
| Codec.DecodeTagEvent | musicfig/lego.py:179-200 | an event exists exactly when the read succeeded, the packet starts with 0x56 and is long enough to hold byte 5; the pad is byte 2 and removal is byte 5 being non-zero |
| Codec.DecodedIdentifier | musicfig/lego.py:193-198 | for a full packet the identifier is the hex of bytes 6..12 with zero runs removed |
| Codec.StripLeavesNoZeroRun | musicfig/lego.py:196 | no `'000000'` survives the replacement anywhere in the string |
| Codec.StripIdempotent | musicfig/lego.py:196 | stripping an already stripped identifier changes nothing |
| Codec.StripTrailingRun | musicfig/lego.py:196 | a run-free string followed by one zero run strips back to itself |
| Codec.DecodedIdentifierNormalised | musicfig/lego.py:194-196 | every decoded identifier is lower-case hex, has no zero run and is a fixed point of stripping |
| Codec.UidRoundTrip | musicfig/lego.py:194-196 | a seven-byte UID whose hex has no zero run is recovered exactly from the identifier |
| Codec.ShortUidNormalised | musicfig/lego.py:194-196 | a four-byte UID padded with three zero bytes decodes to the hex of the four bytes alone, and reads back to them |
| LegacyCodec.UpdateNfc | app/lego.py:77-96 | no string for a failed read, a non-0x56 or a short packet; otherwise the status word, decimal pad and identifier of the same decoded event, colon-separated |
| LegacyCodec.ParseEventLine | app/lego.py:172-174 | with `parts` the ':'-split of the line: the parse succeeds exactly when there are at least three parts and `int(parts[1])` reads, giving status `parts[0]`, that number as pad and `parts[2]` as identifier; fewer than two parts, or a readable pad with only two, is an IndexError; an unreadable second part is a ValueError |
| LegacyCodec.FormatSplits | app/lego.py:91-93 | splitting an event string on ':' gives exactly its status word, decimal pad and identifier |
| LegacyCodec.EventLineRoundTrip | app/lego.py:172-174 | every string `update_nfc` produces splits into exactly three fields and parses back to the event's status, pad and identifier, which holds no ':' |
| LegacyCodec.RemovalLeavesPadsUntouched | app/lego.py:175 | a removal event issues no pad command and raises nothing |
| LegacyCodec.AddedTagFeedback | app/lego.py:175-212 | an added tag first turns its pad blue; an unknown identifier then turns it red; a Spotify entry whose cast gives a duration of at most 0 flashes it red (10, 10, 6 times); the handling raises exactly for a known entry whose Slack post fails (KeyError without `slack_hook`, ValueError on a reply other than 200) or whose cast gave '' or None, and then only the blue switch has been sent |
| Tags.FriendlyName | musicfig/nfc_tag.py:32-39 | the class name minus its last three characters, lower-cased character by character; empty for a name shorter than three |
| Tags.BuiltinFriendlyNames | musicfig/nfc_tag.py:32-39 | the built-in classes are named unknown, legacy, slack, webhook (both webhook classes), spotify and twinkly |
| Tags.GetTypeIsLowerName | musicfig/nfc_tag.py:62-63 | lower-casing runs first, so the "Tag" replacement never fires and the type is the whole lower-cased class name |
| Tags.GetTypeKeepsSuffix | musicfig/nfc_tag.py:62-63 | for every class the type string is three characters longer than the friendly name, so the two never agree |
| Tags.FirstMissing | musicfig/nfc_tag.py:52-55 | no key is reported exactly when every required key is present; a reported key is required and absent |
| Tags.IntOrDefault | musicfig/plugins/spotify.py:56-60 | an absent key gives the default, an integer value or decimal string gives its value, an unparsable string falls back to the default, and only a TypeError escapes |
| Tags.ExtractKind | musicfig/nfc_tag.py:106-124 | the fields extracted match the class, and only the two integer-parsing classes can fail, with a TypeError |
| Tags.Construct | musicfig/nfc_tag.py:41-60 | construction raises KeyError exactly when a required key is missing, naming such a key; a built tag keeps the identifier, name, description and attributes and carries its class's fields |
| Tags.UnrequiringClassesAlwaysBuild | musicfig/nfc_tag.py:57-60 | a class without required attributes accepts any attribute dictionary |
| Tags.WebhookTagFields | musicfig/plugins/webhook.py:16-23 | the webhook tag builds exactly when "added_url" is present; the other fields are None when absent, and the removal body is read from the key "removed.post_json" |
| Tags.PadColor | musicfig/nfc_tag.py:71-90 | red exactly for the unknown-tag class, OFF for every other |
| Tags.Register | musicfig/nfc_tag.py:227-228 | the friendly name now maps to the class, overwriting silently; the keys grow by that name only and other entries are kept |
| Tags.InitialRegistryKeys | musicfig/nfc_tag.py:222-225 | the initial registry holds exactly "slack" and "webhook" |
| Tags.WebhookPluginShadowsCoreWebhook | musicfig/nfc_tag.py:222-228 | registering the plugin's webhook class replaces the core one under "webhook" |
| Tags.RegisterIdempotent | musicfig/nfc_tag.py:227-228 | registering a class twice equals registering it once |
| Tags.ClassFor | musicfig/nfc_tag.py:277 | a type string in the registry selects its class, anything else hashable (None included) selects LegacyTag, and a list or dictionary is a TypeError |
| Tags.RegisteredClassIsSelected | musicfig/nfc_tag.py:277 | a record naming a registered class's friendly name resolves to that class |
| Tags.NewManager | musicfig/nfc_tag.py:232-236 | a new manager has an empty cache and satisfies the cache invariant |
| Tags.FromRecord | musicfig/nfc_tag.py:273-282 | a tag built from a record carries its identifier, name, description and attributes, and has the class the registry selects for its type |
| Tags.Admit | musicfig/nfc_tag.py:299 | caching a newly built tag keeps the cache invariant and changes only that identifier's entry |
| Tags.Resolve | musicfig/nfc_tag.py:285-300 | a cache hit returns the cached object and changes nothing; a miss with no record builds an unknown tag; a miss with a record builds from it; success caches a new object under the identifier, and failure leaves the cache unchanged |
| Tags.ResolveTwice | musicfig/nfc_tag.py:291-300 | a second lookup returns the very same object and changes nothing |
| Tags.ResolveMissIsFresh | musicfig/nfc_tag.py:294-299 | a tag built on a miss is no object already cached |
| Tags.Delete | musicfig/nfc_tag.py:303-311 | None does nothing; otherwise the cache entry is dropped whether present or not, and the row is deleted, or the deletion raises when there is none |
| Tags.ResolveAfterDelete | musicfig/nfc_tag.py:303-311 | after a deletion the identifier resolves to a new unknown tag, distinct from the object cached before |
| Tags.Create | musicfig/nfc_tag.py:314-326 | None for the identifier or type, or a type that is not a registry key, is an ArgumentError; an unhashable type is a TypeError; an existing row is an IntegrityError; otherwise the row is stored and, when the tag builds, it is cached with the registered class |
| Tags.ConvertOne | musicfig/nfc_tag.py:174-183 | name from "name" else "_name" else None, description from "description" else "desc" else None, type from "type"; the five reserved keys are removed and every other key kept unchanged; a non-dictionary definition raises |
| Tags.ConvertAll | musicfig/nfc_tag.py:185-188 | the converted rows are keyed by exactly the definitions' identifiers, each the conversion of its definition; any failing conversion fails the batch |
| Tags.Populate | musicfig/nfc_tag.py:161-189 | the batch commits exactly when every definition converts and no identifier already has a row; old rows are kept and the new ones added |
| Tags.ImportedTagResolves | musicfig/nfc_tag.py:174-183 | an imported definition of a registered type resolves to a tag of that class with the definition's name and its non-reserved keys |
| Tags.LatestUpdate | musicfig/nfc_tag.py:151-154 | the result is the latest row's timestamp, and 0 for an empty store |
| Tags.ShouldImportFile | musicfig/nfc_tag.py:250-264 | true exactly when the file exists and its modification time is later than every row's, and than 0 when there are none |
| Bus.TopicsSeparateKinds | musicfig/plugins/base.py:147-181 | two events share a topic exactly when they are of the same kind |
| Plugins.NewPlugin | musicfig/plugins/base.py:36-46 | None or a tag subclass is accepted and kept, any other class is an ArgumentError; the success colour is PURPLE |
| Plugins.RegisterTagClass | musicfig/plugins/base.py:91-97 | the class becomes selectable under its friendly name exactly when there is one; other entries are kept |
| Plugins.InitApp | musicfig/plugins/base.py:48-63 | the two hooks are subscribed to the two tag topics after the existing subscriptions, then the class is registered |
| Plugins.InitAppRegistersAndSubscribes | musicfig/plugins/base.py:48-97 | a plugin built with a tag class, once initialised, listens on both tag topics and makes its class resolvable |
| Plugins.ConfigGetOrFail | musicfig/plugins/base.py:65-79 | the value is returned exactly when the key is present and not None; otherwise a PluginError naming the key |
| Plugins.DispatchAddSuccess | musicfig/plugins/base.py:156-163 | exactly one add-success publication, carrying the event and the plugin's success colour |
| Plugins.DispatchAddError | musicfig/plugins/base.py:147-154 | exactly one add-error publication carrying only the event |
| Plugins.DispatchRemoveSuccess | musicfig/plugins/base.py:165-172 | exactly one remove-success publication carrying only the event |
| Plugins.DispatchRemoveError | musicfig/plugins/base.py:174-181 | exactly one remove-error publication carrying only the event |
| Plugins.DefaultHook | musicfig/plugins/base.py:99-141 | the base hooks publish nothing |
| WebhookPlugin.Instance | musicfig/plugins/webhook.py:26-28 | the plugin brings the webhook tag class and the PURPLE success colour |
| WebhookPlugin.OnTagAdded | musicfig/plugins/webhook.py:30-43 | a non-webhook tag makes no post and publishes nothing; a webhook tag posts its added URL and body and publishes exactly one event, an add error exactly when the post raised, otherwise success with PURPLE |
| WebhookPlugin.OnTagRemoved | musicfig/plugins/webhook.py:46-62 | nothing happens without a webhook tag with a removal URL; otherwise one post and exactly one event, a remove error exactly when the post raised |
| WebhookPlugin.OnePostOneEvent | musicfig/plugins/webhook.py:30-62 | each hook makes as many posts as it publishes events, at most one |
| WebhookPlugin.HandlesOnlyWebhookTags | musicfig/plugins/webhook.py:33-34 | of the tags the manager builds, the plugin answers exactly those of its own class |
| SpotifyPlugin.Spotcast | musicfig/plugins/spotify.py:246-273 | nothing is sent unless the client is ready; a non-string URI or one not splitting into two parts raises; a track is started at the position, other media as a context; a service error returns None; non-track media returns one minute, a track the playing song's duration or one minute |
| SpotifyPlugin.Resume | musicfig/plugins/spotify.py:227-244 | nothing unless ready; otherwise a resume request first; a service error yields one minute after the devices are listed; after a successful resume the time left in the song, or an AttributeError when nothing is playing |
| SpotifyPlugin.Pause | musicfig/plugins/spotify.py:216-225 | one pause request exactly when the client is ready, and a result of None whatever the service answers: its error is swallowed |
| SpotifyPlugin.PauseSwallowsServiceError | musicfig/plugins/spotify.py:221-225 | a pause the service refuses and one it accepts are indistinguishable to the caller |
| SpotifyPlugin.StartPlayback | musicfig/plugins/spotify.py:275-284 | the paused tag is resumed and stays paused; any other tag is cast and the paused register cleared; the tag becomes active unless the service call raised, which changes nothing |
| SpotifyPlugin.PausePlayback | musicfig/plugins/spotify.py:286-295 | nothing is active afterwards; with nothing active only the paused register is cleared and no pause is sent; otherwise the active tag is paused and moves to the paused register |
| SpotifyPlugin.OnTagAdded | musicfig/plugins/spotify.py:300-311 | a non-Spotify tag does nothing; off the circle pad an add error is published and nothing is started; on it playback starts and success is published with the tag's pad colour |
| SpotifyPlugin.OnTagRemoved | musicfig/plugins/spotify.py:313-322 | only a Spotify tag on the circle pad acts: playback pauses and remove success is published |
| SpotifyPlugin.SpotifySuccessColor | musicfig/plugins/spotify.py:309-311 | a Spotify tag's success is reported with OFF |
| SpotifyPlugin.RemoveThenReAddResumes | musicfig/plugins/spotify.py:275-295 | lifting the active tag and putting it back sends a pause, whether or not the service accepts it, then `resume`'s requests instead of a new cast, and leaves the tag both active and paused |
| SpotifyPlugin.SpotcastSplitsUri | musicfig/plugins/spotify.py:254-260 | the split undoes the "type:id" format: a track id is started as a one-track list at the position, any other type as a context |
| SpotifyPlugin.PrefixedUriRejected | musicfig/plugins/spotify.py:254 | a full "spotify:type:id" URI has three fields, so the unpacking raises ValueError and nothing is sent |
| SpotifyPlugin.ResumeReportsRestOfCast | musicfig/plugins/spotify.py:227-273 | against the same song, a cast reports its duration and a resume the time left, and the two differ by the playback position |
| SpotifyPlugin.NewTagForgetsPaused | musicfig/plugins/spotify.py:279-284 | a tag other than the paused one replaces both registers |
| SpotifyPlugin.SpotifyStartPosition | musicfig/plugins/spotify.py:50-60 | the start position is the parsed attribute, 0 when absent or unparsable |
| TwinklyPlugin.MsPerFrame | musicfig/plugins/twinkly.py:30-37 | 1000 over the frame rate truncated toward zero, plain division for positive rates, and a ZeroDivisionError for 0 |
| TwinklyPlugin.DefaultMsPerFrame | musicfig/plugins/twinkly.py:30-37 | the default 30 frames per second gives 33 ms per frame |
| TwinklyPlugin.TwinklyFps | musicfig/plugins/twinkly.py:21-28 | the frame rate is the parsed attribute, 30 when absent or unparsable |
| TwinklyPlugin.MissingKey | musicfig/plugins/twinkly.py:172-176 | the key scan finds a gap exactly when some key to verify is missing or None |
| TwinklyPlugin.TryNetworkOperation | musicfig/plugins/twinkly.py:134-184 | the reply is handed back unchanged exactly when the call returned, the code is 1000 and every key to verify is present and not None; otherwise an operation error |
| TwinklyPlugin.FrameCount | musicfig/plugins/twinkly.py:102-107 | the device's frame count when it reports one, otherwise the file size over three bytes per LED, and a ZeroDivisionError with no LEDs |
| TwinklyPlugin.ConfigureAndPlay | musicfig/plugins/twinkly.py:109-111 | the movie configuration is sent with frame time, frame count and LED count, and mode "movie" follows exactly when it succeeded |
| TwinklyPlugin.Upload | musicfig/plugins/twinkly.py:94-111 | mode "off" comes first; a full success is off, upload, configuration, movie |
| TwinklyPlugin.StartPattern | musicfig/plugins/twinkly.py:65-111 | a non-Twinkly tag raises before any call; a missing pattern file ends before any call; otherwise device info is asked first, and a full success makes the five calls in order |
| TwinklyPlugin.BadLedCountStops | musicfig/plugins/twinkly.py:88-92 | an LED count that does not parse stops after the first call with an operation error |
| TwinklyPlugin.SuccessfulUpload | musicfig/plugins/twinkly.py:88-111 | when every reply succeeds the five calls are made in order, with the tag's frame time, the frame count and the LED count |
| MainLoop.ColorDefaults | musicfig/main.py:162-172 | unconfigured colours default to DIM, RED, BLUE and PURPLE; a configured colour wins |
| MainLoop.NewLoop | musicfig/main.py:18-21 | a new loop has no active tags, is set to loop, and has sent and published nothing |
| MainLoop.StopLoop | musicfig/main.py:49-51 | only the loop flag changes, to false |
| MainLoop.UpdateActiveTags | musicfig/main.py:90-101 | the tag is in the set afterwards exactly when the event was not a removal; no other member changes |
| MainLoop.UpdateActiveTagsIsSetLike | musicfig/main.py:98-101 | repeating an update changes nothing; removing an absent tag or adding a present one is a no-op |
| MainLoop.PublishTagEvent | musicfig/main.py:77-88 | the topic is "tag.removed" exactly for removals, otherwise "tag.added", with the event and tag untouched |
| MainLoop.OnResponse | musicfig/main.py:115-157 | each of the four responses yields one command for the event's pad; tag events yield none |
| MainLoop.ResponseFeedback | musicfig/main.py:103-157 | add success fades (10, once) to the given colour or the default active colour; remove success fades to the idle colour; both errors flash the error colour (8, 8, 4 times) |
| MainLoop.HandleAll | musicfig/main.py:115-157 | a run of responses yields one command per response, each the handler's command, in order |
| MainLoop.Iteration | musicfig/main.py:65-75 | no event changes nothing; a resolution failure adds only an error flash; otherwise the cache, active set and bus advance (tag event first, then the responses), the handlers' commands follow, and the logs only grow |
| MainLoop.RaisedDuringDelivery | musicfig/main.py:69-75 | an ordinary exception from a subscriber ends in an error flash on the event's pad; one derived only from BaseException ends the loop thread |
| MainLoop.ResolutionFailureOnlyFlashes | musicfig/main.py:69-75 | a tag that cannot be resolved leaves the active set, the bus and the cache alone and adds exactly one error flash |
| MainLoop.BusRecordsTagEventFirst | musicfig/main.py:70-72 | each resolved poll appends the tag event, then exactly the responses |
| MainLoop.RunLoop | musicfig/main.py:61-75 | the loop keeps the cache invariant, only grows the logs, and does nothing once stopped or crashed |
| MainLoop.Run | musicfig/main.py:53-75 | the first command sets every pad to the idle colour |
| MainLoop.StopEndsRun | musicfig/main.py:49-61 | after `stop_loop` no further iteration starts, whatever the portal reports |
| MainLoop.NoEventNoChange | musicfig/main.py:65-67 | a poll yielding no event changes nothing |
| Scenarios.WebhookAddLightsPad | musicfig/plugins/webhook.py:30-43 | a webhook tag's pad fades to PURPLE when the post goes through and flashes the error colour when it raises |
| Scenarios.SpotifyOffCirclePadFlashes | musicfig/plugins/spotify.py:307-308 | a Spotify tag off the circle pad sends nothing to the service, keeps the playback registers and flashes its pad |
| Scenarios.SpotifyOnCirclePadFadesOff | musicfig/plugins/spotify.py:309-311 | a Spotify tag that starts on the circle pad becomes the active tag, joins the active set and fades its pad to OFF |
| Scenarios.UnknownPacketIsTracked | musicfig/main.py:65-72 | a packet for an unknown identifier yields a cached unknown tag that joins the active set and is published first |
| Scenarios.DispatchedResponsesLightPad | musicfig/plugins/base.py:147-181 | each publisher, heard by the loop, gives one pad command: add success fades to the plugin's success colour, remove success to the idle colour, either error flashes the error colour |
| Scenarios.UnconfiguredFeedback | musicfig/main.py:103-172 | with no colours configured a base-class plugin's success fades PURPLE, a removal fades DIM and an error flashes RED |
| Scenarios.DefaultHooksOnlyRecordTheEvent | musicfig/plugins/base.py:99-141 | a plugin on the base hooks adds nothing to the bus but the tag event and sends no pad command |

## Left out

- USB set-up and the raw device calls are not modelled. A read is an input (`None` when it raised), and the command log stands for the writes. The write exception `send_command` swallows changes nothing to model.
- Of the older driver's `Base.startLego` loop (app/lego.py:163-212) the model keeps the parse of each event string, the pad commands it sends and the exceptions that end it (`LegacyCodec.HandleEventLine`). The mp3 playback, light shows, the Slack message itself, tag reloading and the `position_ms` parse are left out: they are threads, processes and network calls.
- LegacyCodec.AddedTagFeedback: the mp3 branch (`playMp3`, which calls the Spotify client's `pause`), `nfc.load_tags()` and the `tags['identifier']` lookup are taken not to raise; the Slack post's connection errors count as a refused reply.
- Nothing is modelled of the pub/sub library: delivery, subscriber order, and the loop's own `_init_event_handlers`. What subscribers publish, and whether one raised, is the `Delivery` input.
- `MainLoop.init_app` is left out because it only wires Flask, the logger and the device. It builds `Dimensions(app)`, but the constructor takes no argument. `get_thinking_color` has no caller.
- The `random.randint(1, 10000) == 0` log line in `run` is left out: it is logging only, and the condition can never hold.
- Values.ToInt: reads ASCII digits only. Python's `int()` also accepts every other Unicode decimal digit (`int("٣٠") == 30`), and from Python 3.11 on it refuses strings of more than 4300 digits (as `str()` refuses such numbers); neither is modelled.
- SpotifyPlugin.Resume: the device listing after a refused resume is taken to answer; an HTTPError from it would escape `resume`.
- MainLoop.ColorDefaults: a configuration key that is present but set to None is treated as absent. Python would pass None on as the colour.
- Tags.Create: does not model the TypeError that `json.dumps(dict)` raises for a dictionary of attributes (musicfig/nfc_tag.py:321). Attributes are kept as a decoded dictionary.
- Tags.FromRecord: the JSON decoding of a row's attributes (`get_attr_object`) is not part of this model. Records hold decoded attributes.
- The `on_add`/`on_remove` hooks, the core `WebhookTag`/`SlackTag` posting and the socketio emits are side effects, and the main loop never calls them. The same goes for `should_do_light_show` and `should_use_class_based_execution`. The Slack tag's webhook URL comes from the app configuration and is not modelled.
- YAML loading, `os.path.isfile`, `os.stat` and `time.time()` become parameters: the definitions, the file's truncated modification time (or none) and `now`. The `get_instance` singleton and the unused `last_updated`/`_tags` fields are left out.
- For Spotify, tokens and the Tekore client are reduced to the three readiness checks. What is playing is an input. The song cache is left out. `to_uri` is kept as the (type, id) pair.
- For Twinkly, `init_app` (its three configuration keys and the control interface) is not modelled.
- `TwinklyPlugin()` (musicfig/plugins/twinkly.py:194) is built without the `tag_class` argument the base constructor requires. Its hook is also named `_on_tag_added`, so the bus never calls it. `StartPattern` is modelled on its own.
- `response.data.get("frames_number")` is read as a lookup in the reply itself, and the pattern file is given by its size. The timing logs are not modelled.
- Floating point is not modelled. `int(1000 / fps)` and `int(file_size / bytes_per_frame)` are exact truncating divisions, so very large operands, where float rounding would differ, are not covered.
- `Dimensions.CIRCLE_PAD` and `Dimensions.ALL_PAD` are not defined in the files modelled. They are parameters (`circlePad`, `Config.allPad`), and pads are opaque numbers.
- Other modules are not part of this model: the mp3 player, the Flask routes, the ORM models, the Spotify and webhook HTTP clients, `musicfig/plugins/core.py` and the `Base` class of musicfig/lego.py.

## Findings

| source | as written | input that shows it | evidently intended | confidence | as-written member | corrected member |
|---|---|---|---|---|---|---|
| musicfig/lego.py:175-177 | the flash command's last colour byte is `colour[1]` (green), as in app/lego.py:71-75 | `flash_pad_color(pad, 8, 8, 4, PURPLE)`: PURPLE is (100, 0, 100), but the portal receives (100, 0, 0) and flashes red | `colour[2]` (blue) in the last byte, as in the other two builders | not executed; high, since both drivers repeat the same byte and the other builders use `colour[2]` | Codec.FlashDropsBlue | Codec.IntendedFrameRoundTrip |

`Codec.Frame` is the message the code as written transmits, and
`Codec.FrameRoundTrip` proves what the portal reads from it.
`Codec.FrameIntended` is the corrected message. The command log the main loop
keeps records each command as requested, which is what
`Codec.IntendedFrameRoundTrip` proves the corrected message delivers.
