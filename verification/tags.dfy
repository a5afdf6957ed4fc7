/** Tag definitions and their resolution, after musicfig/nfc_tag.py and the
    tag classes the plugins define: required-attribute validation, the
    friendly-name and type derivations, the friendly-name → class registry,
    the record store, and the manager that caches one tag object per
    identifier.

    Python object identity matters here (the main loop keeps a set of tag
    objects and the Spotify plugin compares tags with `is`), so every
    constructed tag carries a `serial` the manager hands out once; two tags
    are the same object exactly when they are equal. */
module Tags {
  import opened Values
  import opened Colors

  // ---------------------------------------------------------------------
  // Tag classes
  // ---------------------------------------------------------------------

  /** The concrete `NFCTag` subclasses. `CoreWebhookTag` is the `WebhookTag`
      of musicfig/nfc_tag.py (it needs "url"); `WebhookTag` is the one the
      webhook plugin defines (it needs "added_url"). `CustomTag` stands for
      any other subclass a plugin brings along. */
  datatype TagClass =
    | UnknownTag
    | LegacyTag
    | CoreWebhookTag
    | SlackTag
    | WebhookTag
    | SpotifyTag
    | TwinklyTag
    | CustomTag(className: string, required: seq<string>)

  /** `cls.__name__` */
  function ClassName(c: TagClass): string {
    match c
    case UnknownTag => "UnknownTag"
    case LegacyTag => "LegacyTag"
    case CoreWebhookTag => "WebhookTag"
    case SlackTag => "SlackTag"
    case WebhookTag => "WebhookTag"
    case SpotifyTag => "SpotifyTag"
    case TwinklyTag => "TwinklyTag"
    case CustomTag(name, _) => name
  }

  /** `get_friendly_name`: the class name without its last three characters,
      lower-cased (`[0:-3]` of a name shorter than three is empty). */
  function FriendlyName(c: TagClass): (r: string)
    ensures |ClassName(c)| >= 3 ==> |r| == |ClassName(c)| - 3
    ensures |ClassName(c)| < 3 ==> r == ""
    ensures forall i :: 0 <= i < |r| ==> r[i] == LowerChar(ClassName(c)[i])
  {
    var name := ClassName(c);
    if |name| >= 3 then Lower(name[..|name| - 3]) else ""
  }

  /** `get_type`: the replacement of "Tag" runs after lower-casing. */
  function GetType(c: TagClass): string {
    ReplaceAll(Lower(ClassName(c)), "Tag", "")
  }

  /** `Lower` agrees with any string that lower-cases `s` character by character. */
  lemma LowerIs(s: string, t: string)
    requires |s| == |t| && forall i :: 0 <= i < |s| ==> LowerChar(s[i]) == t[i]
    ensures Lower(s) == t
  {
  }

  lemma FriendlyNameOf(c: TagClass, stem: string, friendly: string)
    requires ClassName(c) == stem + "Tag"
    requires |stem| == |friendly| && forall i :: 0 <= i < |stem| ==> LowerChar(stem[i]) == friendly[i]
    ensures FriendlyName(c) == friendly
  {
    assert ClassName(c)[..|ClassName(c)| - 3] == stem;
    LowerIs(stem, friendly);
  }

  lemma UnknownFriendlyName() ensures FriendlyName(UnknownTag) == "unknown" {
    FriendlyNameOf(UnknownTag, "Unknown", "unknown");
  }

  lemma LegacyFriendlyName() ensures FriendlyName(LegacyTag) == "legacy" {
    FriendlyNameOf(LegacyTag, "Legacy", "legacy");
  }

  lemma SlackFriendlyName() ensures FriendlyName(SlackTag) == "slack" {
    FriendlyNameOf(SlackTag, "Slack", "slack");
  }

  lemma WebhookFriendlyName()
    ensures FriendlyName(WebhookTag) == "webhook" && FriendlyName(CoreWebhookTag) == "webhook"
  {
    FriendlyNameOf(WebhookTag, "Webhook", "webhook");
    FriendlyNameOf(CoreWebhookTag, "Webhook", "webhook");
  }

  lemma SpotifyFriendlyName() ensures FriendlyName(SpotifyTag) == "spotify" {
    FriendlyNameOf(SpotifyTag, "Spotify", "spotify");
  }

  lemma TwinklyFriendlyName() ensures FriendlyName(TwinklyTag) == "twinkly" {
    FriendlyNameOf(TwinklyTag, "Twinkly", "twinkly");
  }

  lemma BuiltinFriendlyNames()
    ensures FriendlyName(UnknownTag) == "unknown"
    ensures FriendlyName(LegacyTag) == "legacy"
    ensures FriendlyName(SlackTag) == "slack"
    ensures FriendlyName(WebhookTag) == "webhook" && FriendlyName(CoreWebhookTag) == "webhook"
    ensures FriendlyName(SpotifyTag) == "spotify"
    ensures FriendlyName(TwinklyTag) == "twinkly"
  {
    UnknownFriendlyName();
    LegacyFriendlyName();
    SlackFriendlyName();
    WebhookFriendlyName();
    SpotifyFriendlyName();
    TwinklyFriendlyName();
  }

  /** A lower-cased string holds no upper-case letter, so "Tag" never occurs in it. */
  lemma LowerHasNoTag(s: string)
    ensures Free(Lower(s), "Tag")
  {
    var l := Lower(s);
    forall i: nat | i <= |l|
      ensures !OccursAt(l, "Tag", i)
    {
      if i + 3 <= |l| {
        assert l[i..i + 3][0] == l[i];
        assert l[i] == LowerChar(s[i]);
      }
    }
  }

  /** The type string is the whole lower-cased class name: the "Tag" suffix
      is never removed, so it differs from the friendly name. */
  lemma GetTypeIsLowerName(c: TagClass)
    ensures GetType(c) == Lower(ClassName(c))
  {
    LowerHasNoTag(ClassName(c));
    ReplaceAbsent(Lower(ClassName(c)), "Tag", "");
  }

  /** Because the suffix stays, the type string of every class is three
      characters longer than its friendly name, so the two never agree. */
  lemma GetTypeKeepsSuffix(c: TagClass)
    requires |ClassName(c)| >= 3
    ensures |GetType(c)| == |FriendlyName(c)| + 3
    ensures GetType(c) != FriendlyName(c)
  {
    GetTypeIsLowerName(c);
  }

  /** `required_attributes`, or none for classes that do not define it. */
  function Required(c: TagClass): seq<string> {
    match c
    case CoreWebhookTag => ["url"]
    case SlackTag => ["text"]
    case WebhookTag => ["added_url"]
    case SpotifyTag => ["spotify_uri"]
    case TwinklyTag => ["pattern"]
    case CustomTag(_, required) => required
    case _ => []
  }

  // ---------------------------------------------------------------------
  // Tag objects
  // ---------------------------------------------------------------------

  /** What each class pulls out of its attributes in `_init_attributes`. */
  datatype Kind =
    | Plain
    | CoreWebhook(url: Value)
    | Slack(text: Value)
    | Webhook(addedUrl: Value, addedPostJson: Value, removedUrl: Value, removedPostJson: Value)
    | Spotify(spotifyUri: Value, startPositionMs: int)
    | Twinkly(pattern: Value, fps: int)

  datatype Tag = Tag(
    serial: nat,
    cls: TagClass,
    identifier: string,
    name: Value,
    description: Value,
    attributes: Attributes,
    kind: Kind)

  const DEFAULT_START_POSITION_MS: int := 0
  const DEFAULT_FPS: int := 30

  /** The first required key missing from the attributes, in declaration
      order: the key `_verify_attributes` raises KeyError for. */
  function FirstMissing(required: seq<string>, attrs: Attributes): (r: Option<string>)
    ensures r.None? <==> forall k :: k in required ==> k in attrs
    ensures r.Some? ==> r.value in required && r.value !in attrs
  {
    if |required| == 0 then None
    else if required[0] !in attrs then Some(required[0])
    else FirstMissing(required[1..], attrs)
  }

  /** `int(attrs.get(key, default))` with ValueError falling back to the
      default; a TypeError (None, a list, a dictionary) is not caught. */
  function IntOrDefault(attrs: Attributes, key: string, default: int): (r: Result<int>)
    ensures key !in attrs ==> r == Ok(default)
    ensures key in attrs && ToInt(attrs[key]).Ok? ==> r == Ok(ToInt(attrs[key]).value)
    ensures key in attrs && attrs[key].VStr? && ParseInt(attrs[key].s).None? ==> r == Ok(default)
    ensures r.Err? <==> key in attrs && ToInt(attrs[key]) == Err(TypeError)
  {
    match ToInt(GetOr(attrs, key, VInt(default)))
    case Ok(i) => Ok(i)
    case Err(ValueError) => Ok(default)
    case Err(e) => Err(e)
  }

  /** The class-specific fields, once every required key is known present. */
  function ExtractKind(c: TagClass, attrs: Attributes): (r: Result<Kind>)
    requires forall k :: k in Required(c) ==> k in attrs
    ensures r.Err? ==> r.error == TypeError && (c == SpotifyTag || c == TwinklyTag)
    ensures r.Ok? ==> KindMatches(c, r.value)
  {
    match c
    case CoreWebhookTag => Ok(CoreWebhook(attrs["url"]))
    case SlackTag => Ok(Slack(attrs["text"]))
    case WebhookTag =>
      Ok(Webhook(attrs["added_url"], Get(attrs, "added_post_json"),
                 Get(attrs, "removed_url"), Get(attrs, "removed.post_json")))
    case SpotifyTag =>
      (match IntOrDefault(attrs, "start_position_ms", DEFAULT_START_POSITION_MS)
       case Ok(ms) => Ok(Spotify(attrs["spotify_uri"], ms))
       case Err(e) => Err(e))
    case TwinklyTag =>
      (match IntOrDefault(attrs, "fps", DEFAULT_FPS)
       case Ok(fps) => Ok(Twinkly(attrs["pattern"], fps))
       case Err(e) => Err(e))
    case _ => Ok(Plain)
  }

  /** The fields a tag carries identify its class: an `isinstance` test on
      one of the plugin classes is a test of the kind. */
  predicate KindMatches(c: TagClass, k: Kind) {
    && (k.CoreWebhook? <==> c == CoreWebhookTag)
    && (k.Slack? <==> c == SlackTag)
    && (k.Webhook? <==> c == WebhookTag)
    && (k.Spotify? <==> c == SpotifyTag)
    && (k.Twinkly? <==> c == TwinklyTag)
  }

  /** `cls(identifier, name=..., description=..., attributes=...)`. */
  function Construct(c: TagClass, serial: nat, id: string, name: Value, desc: Value, attrs: Attributes)
    : (r: Result<Tag>)
    ensures (exists k :: k in Required(c) && k !in attrs) <==> r.Err? && r.error.KeyError?
    ensures r.Err? && r.error.KeyError? ==> r.error.key in Required(c) && r.error.key !in attrs
    ensures r.Err? && !r.error.KeyError? ==> r.error == TypeError && (c == SpotifyTag || c == TwinklyTag)
    ensures r.Ok? ==> r.value.serial == serial && r.value.cls == c && r.value.identifier == id
                      && r.value.name == name && r.value.description == desc && r.value.attributes == attrs
    ensures r.Ok? ==> KindMatches(c, r.value.kind)
  {
    match FirstMissing(Required(c), attrs)
    case Some(k) => Err(KeyError(k))
    case None =>
      match ExtractKind(c, attrs)
      case Err(e) => Err(e)
      case Ok(kind) => Ok(Tag(serial, c, id, name, desc, attrs, kind))
  }

  /** Classes without required attributes accept any attribute dictionary. */
  lemma UnrequiringClassesAlwaysBuild(c: TagClass, serial: nat, id: string, name: Value, desc: Value, attrs: Attributes)
    requires c == UnknownTag || c == LegacyTag || (c.CustomTag? && c.required == [])
    ensures Construct(c, serial, id, name, desc, attrs).Ok?
    ensures Construct(c, serial, id, name, desc, attrs).value.kind == Plain
  {
  }

  /** The webhook plugin's tag: "added_url" is required, the other three
      fields are None when absent, and the removal body is read from the
      literal key "removed.post_json". */
  lemma WebhookTagFields(serial: nat, id: string, name: Value, desc: Value, attrs: Attributes)
    ensures var r := Construct(WebhookTag, serial, id, name, desc, attrs);
      ("added_url" in attrs <==> r.Ok?)
      && (r.Ok? ==> r.value.kind == Webhook(attrs["added_url"], Get(attrs, "added_post_json"),
                                              Get(attrs, "removed_url"), Get(attrs, "removed.post_json")))
      && (r.Ok? && "removed.post_json" !in attrs ==> r.value.kind.removedPostJson == VNull)
  {
  }

  /** `get_pad_color`: only the unknown-tag class overrides OFF. */
  function PadColor(t: Tag): (c: Color)
    ensures c == RED <==> t.cls == UnknownTag
    ensures c == OFF <==> t.cls != UnknownTag
  {
    if t.cls == UnknownTag then RED else OFF
  }

  // ---------------------------------------------------------------------
  // The registry
  // ---------------------------------------------------------------------

  type Registry = map<string, TagClass>

  /** `TAG_REGISTRY_MAP` before any plugin registers. */
  const INITIAL_REGISTRY: Registry := map["slack" := SlackTag, "webhook" := CoreWebhookTag]

  /** `register_tag_type`: the friendly name now maps to the class, whatever
      it mapped to before; every other entry is kept. */
  function Register(reg: Registry, c: TagClass): (r: Registry)
    ensures FriendlyName(c) in r && r[FriendlyName(c)] == c
    ensures r.Keys == reg.Keys + {FriendlyName(c)}
    ensures forall k :: k in reg && k != FriendlyName(c) ==> r[k] == reg[k]
  {
    reg[FriendlyName(c) := c]
  }

  lemma InitialRegistryKeys()
    ensures INITIAL_REGISTRY.Keys == {"slack", "webhook"}
    ensures INITIAL_REGISTRY["webhook"] == CoreWebhookTag
  {
  }

  /** Registering the webhook plugin's class replaces the core webhook class
      under "webhook". */
  lemma WebhookPluginShadowsCoreWebhook()
    ensures Register(INITIAL_REGISTRY, WebhookTag) == map["slack" := SlackTag, "webhook" := WebhookTag]
  {
    WebhookFriendlyName();
  }

  /** Registering the same class twice is the same as registering it once. */
  lemma RegisterIdempotent(reg: Registry, c: TagClass)
    ensures Register(Register(reg, c), c) == Register(reg, c)
  {
  }

  /** `TAG_REGISTRY_MAP.get(type, LegacyTag)`: a string key present in the
      map selects its class; anything else hashable (None included) selects
      LegacyTag; a list or dictionary cannot be hashed. */
  function ClassFor(reg: Registry, tagType: Value): (r: Result<TagClass>)
    ensures r.Err? <==> tagType.VList? || tagType.VDict?
    ensures r.Err? ==> r.error == TypeError
    ensures tagType.VStr? && tagType.s in reg ==> r == Ok(reg[tagType.s])
    ensures r.Ok? && !(tagType.VStr? && tagType.s in reg) ==> r.value == LegacyTag
  {
    match tagType
    case VStr(s) => if s in reg then Ok(reg[s]) else Ok(LegacyTag)
    case VList(_) => Err(TypeError)
    case VDict(_) => Err(TypeError)
    case _ => Ok(LegacyTag)
  }

  /** A registered class is what a record of its friendly name resolves to. */
  lemma RegisteredClassIsSelected(reg: Registry, c: TagClass)
    ensures ClassFor(Register(reg, c), VStr(FriendlyName(c))) == Ok(c)
  {
  }

  // ---------------------------------------------------------------------
  // The store and the manager
  // ---------------------------------------------------------------------

  /** A stored tag definition (one `NFCTagModel` row, with its attribute
      JSON already decoded). */
  datatype Record = Record(name: Value, description: Value, tagType: Value, attributes: Attributes, lastUpdated: int)

  type Store = map<string, Record>

  /** `NFCTagManager`: the tag cache (`self.tags`), the store it reads, and
      the next object identity to hand out. */
  datatype Manager = Manager(cache: map<string, Tag>, store: Store, nextSerial: nat)

  /** Every cached tag sits under its own identifier, has an identity that
      was already handed out, and no two cached tags share an identity. */
  predicate Valid(m: Manager) {
    && (forall id :: id in m.cache ==> m.cache[id].identifier == id && m.cache[id].serial < m.nextSerial)
    && (forall a, b :: a in m.cache && b in m.cache && a != b ==> m.cache[a].serial != m.cache[b].serial)
  }

  function NewManager(store: Store): (m: Manager)
    ensures Valid(m) && m.cache == map[]
  {
    Manager(map[], store, 0)
  }

  /** `nfc_tag_from_model`. */
  function FromRecord(reg: Registry, serial: nat, id: string, rec: Record): (r: Result<Tag>)
    ensures r.Ok? ==> r.value.serial == serial && r.value.identifier == id
                      && r.value.name == rec.name && r.value.description == rec.description
                      && r.value.attributes == rec.attributes
    ensures r.Ok? ==> ClassFor(reg, rec.tagType) == Ok(r.value.cls)
  {
    match ClassFor(reg, rec.tagType)
    case Err(e) => Err(e)
    case Ok(c) => Construct(c, serial, id, rec.name, rec.description, rec.attributes)
  }

  /** Caches a freshly built tag under its identifier. */
  function Admit(m: Manager, t: Tag): (r: Manager)
    requires t.serial == m.nextSerial
    requires Valid(m)
    ensures Valid(r)
    ensures r.store == m.store && r.cache == m.cache[t.identifier := t] && r.nextSerial == m.nextSerial + 1
  {
    Manager(m.cache[t.identifier := t], m.store, m.nextSerial + 1)
  }

  datatype Resolved = Resolved(result: Result<Tag>, manager: Manager)

  /** `get_nfc_tag_by_id`. */
  function Resolve(reg: Registry, m: Manager, id: string): (r: Resolved)
    requires Valid(m)
    ensures Valid(r.manager)
    ensures id in m.cache ==> r == Resolved(Ok(m.cache[id]), m)
    ensures r.result.Err? ==> r.manager == m && id !in m.cache && id in m.store
    ensures r.result.Ok? ==> r.result.value.identifier == id
                             && r.manager.store == m.store
                             && r.manager.cache == m.cache[id := r.result.value]
    ensures id !in m.cache && r.result.Ok? ==> r.result.value.serial == m.nextSerial
    ensures id !in m.cache && id !in m.store ==>
              r.result.Ok? && r.result.value.cls == UnknownTag
              && r.result.value.name == VNull && r.result.value.attributes == map[]
    ensures id !in m.cache && id in m.store ==>
              r.result == FromRecord(reg, m.nextSerial, id, m.store[id])
  {
    if id in m.cache then Resolved(Ok(m.cache[id]), m)
    else
      var built :=
        if id in m.store then FromRecord(reg, m.nextSerial, id, m.store[id])
        else Construct(UnknownTag, m.nextSerial, id, VNull, VNull, map[]);
      match built
      case Err(e) => Resolved(Err(e), m)
      case Ok(t) => Resolved(Ok(t), Admit(m, t))
  }

  /** A second lookup of the same identifier returns the very same object
      and changes nothing. */
  lemma ResolveTwice(reg: Registry, m: Manager, id: string)
    requires Valid(m)
    requires Resolve(reg, m, id).result.Ok?
    ensures var r1 := Resolve(reg, m, id);
      Resolve(reg, r1.manager, id) == Resolved(r1.result, r1.manager)
  {
  }

  /** A freshly built tag is a new object: no tag already in the cache is it. */
  lemma ResolveMissIsFresh(reg: Registry, m: Manager, id: string)
    requires Valid(m) && id !in m.cache
    requires Resolve(reg, m, id).result.Ok?
    ensures forall k :: k in m.cache ==> m.cache[k] != Resolve(reg, m, id).result.value
  {
  }

  datatype Deleted = Deleted(outcome: Outcome, manager: Manager)

  /** `delete_nfc_tag_by_id`. The cache entry is popped whether or not it
      exists; deleting a row that is not in the store hands None to the ORM,
      which raises. */
  function Delete(m: Manager, id: Option<string>): (r: Deleted)
    requires Valid(m)
    ensures Valid(r.manager)
    ensures id.None? ==> r == Deleted(Pass, m)
    ensures id.Some? ==> r.manager.cache == m.cache - {id.value} && r.manager.nextSerial == m.nextSerial
    ensures id.Some? && id.value in m.store ==> r.outcome == Pass && r.manager.store == m.store - {id.value}
    ensures id.Some? && id.value !in m.store ==> r.outcome == Fail(UnmappedInstanceError) && r.manager.store == m.store
  {
    match id
    case None => Deleted(Pass, m)
    case Some(k) =>
      var m' := m.(cache := m.cache - {k});
      if k in m.store then Deleted(Pass, m'.(store := m.store - {k}))
      else Deleted(Fail(UnmappedInstanceError), m')
  }

  /** After a deletion the identifier is looked up afresh: a stored record
      is gone, so the next lookup builds an unknown tag as a new object. */
  lemma ResolveAfterDelete(reg: Registry, m: Manager, id: string)
    requires Valid(m) && id in m.store
    ensures var d := Delete(m, Some(id)).manager;
      var r := Resolve(reg, d, id);
      r.result.Ok? && r.result.value.cls == UnknownTag && r.result.value.serial == m.nextSerial
      && (id in m.cache ==> r.result.value != m.cache[id])
  {
  }

  datatype Created = Created(result: Result<Tag>, manager: Manager)

  /** `create_nfc_tag`. The identifier and type are checked first (None for
      either, or a type that is not a registry key, is an ArgumentError), the
      row is inserted (an existing identifier violates the key), and the tag
      built from it is cached. A tag that fails to build leaves the row in
      place and the cache untouched. */
  function Create(reg: Registry, m: Manager, id: Option<string>, tagType: Value,
                  name: Value, desc: Value, attrs: Attributes, now: int): (r: Created)
    requires Valid(m)
    ensures Valid(r.manager)
    ensures id.None? || tagType == VNull ==> r == Created(Err(ArgumentError), m)
    ensures (id.Some? && (tagType.VStr? || tagType.VInt? || tagType.VBool?) && !(tagType.VStr? && tagType.s in reg))
              ==> r == Created(Err(ArgumentError), m)
    ensures id.Some? && (tagType.VList? || tagType.VDict?) ==> r == Created(Err(TypeError), m)
    ensures (id.Some? && tagType.VStr? && tagType.s in reg && id.value in m.store)
              ==> r == Created(Err(IntegrityError), m)
    ensures r.result.Ok? ==>
              && id.Some? && tagType.VStr? && tagType.s in reg && id.value !in m.store
              && r.manager.store == m.store[id.value := Record(name, desc, tagType, attrs, now)]
              && r.manager.cache == m.cache[id.value := r.result.value]
              && r.result.value.cls == reg[tagType.s]
              && r.result.value.identifier == id.value
    ensures id.Some? && tagType.VStr? && tagType.s in reg && id.value !in m.store ==>
              r.manager.store == m.store[id.value := Record(name, desc, tagType, attrs, now)]
              && (r.result.Err? ==> r.manager.cache == m.cache)
  {
    if id.None? || tagType == VNull then Created(Err(ArgumentError), m)
    else if tagType.VList? || tagType.VDict? then Created(Err(TypeError), m)
    else if !(tagType.VStr? && tagType.s in reg) then Created(Err(ArgumentError), m)
    else if id.value in m.store then Created(Err(IntegrityError), m)
    else
      var rec := Record(name, desc, tagType, attrs, now);
      var stored := m.(store := m.store[id.value := rec]);
      match FromRecord(reg, m.nextSerial, id.value, rec)
      case Err(e) => Created(Err(e), stored)
      case Ok(t) => Created(Ok(t), Admit(stored, t))
  }

  // ---------------------------------------------------------------------
  // Importing definitions
  // ---------------------------------------------------------------------

  /** Keys `convert_one` pops off a definition. */
  const RESERVED: set<string> := {"name", "_name", "description", "desc", "type"}

  /** `convert_one`: name from "name", else "_name"; description from
      "description", else "desc"; type from "type"; every other key stays an
      attribute. A definition that is not a dictionary cannot be popped from
      (`list.pop` takes one argument; other values have no `pop`). */
  function ConvertOne(v: Value, now: int): (r: Result<Record>)
    ensures r.Err? <==> !v.VDict?
    ensures r.Err? ==> r.error == (if v.VList? then TypeError else AttributeError)
    ensures r.Ok? ==> r.value.lastUpdated == now
    ensures r.Ok? ==> forall k :: k in r.value.attributes <==> k in v.entries && k !in RESERVED
    ensures r.Ok? ==> forall k :: k in r.value.attributes ==> r.value.attributes[k] == v.entries[k]
    ensures r.Ok? ==> r.value.name == (if "name" in v.entries then v.entries["name"]
                                       else if "_name" in v.entries then v.entries["_name"] else VNull)
    ensures r.Ok? ==> r.value.description == (if "description" in v.entries then v.entries["description"]
                                              else if "desc" in v.entries then v.entries["desc"] else VNull)
    ensures r.Ok? ==> r.value.tagType == (if "type" in v.entries then v.entries["type"] else VNull)
  {
    match v
    case VDict(d) =>
      var name := GetOr(d, "name", GetOr(d, "_name", VNull));
      var desc := GetOr(d, "description", GetOr(d, "desc", VNull));
      var tagType := Get(d, "type");
      Ok(Record(name, desc, tagType, d - RESERVED, now))
    case VList(_) => Err(TypeError)
    case _ => Err(AttributeError)
  }

  /** A definition parsed from the file: identifier and value, in file order. */
  type Definitions = seq<(string, Value)>

  predicate DistinctIds(defs: Definitions) {
    forall i, j :: 0 <= i < j < |defs| ==> defs[i].0 != defs[j].0
  }

  /** The identifiers the definitions introduce. */
  function Ids(defs: Definitions): set<string> {
    set i | 0 <= i < |defs| :: defs[i].0
  }

  /** Converts every definition in order; the first failure is raised. */
  function ConvertAll(defs: Definitions, now: int): (r: Result<Store>)
    requires DistinctIds(defs)
    ensures r.Err? <==> exists i :: 0 <= i < |defs| && ConvertOne(defs[i].1, now).Err?
    ensures r.Ok? ==> r.value.Keys == Ids(defs)
    ensures r.Ok? ==> forall i :: 0 <= i < |defs| ==> r.value[defs[i].0] == ConvertOne(defs[i].1, now).value
  {
    if |defs| == 0 then Ok(map[])
    else
      TailFacts(defs);
      match ConvertOne(defs[0].1, now)
      case Err(e) => Err(e)
      case Ok(rec) =>
        match ConvertAll(defs[1..], now)
        case Err(e) => Err(e)
        case Ok(rest) =>
          ConvertAllCons(defs, now, rest);
          Ok(rest[defs[0].0 := rec])
  }

  /** The tail of a definition list: distinct, shifted by one, and without
      the head's identifier. */
  lemma TailFacts(defs: Definitions)
    requires |defs| > 0 && DistinctIds(defs)
    ensures DistinctIds(defs[1..])
    ensures forall i :: 1 <= i < |defs| ==> defs[i] == defs[1..][i - 1]
    ensures Ids(defs) == {defs[0].0} + Ids(defs[1..])
  {
    var tail := defs[1..];
    forall k | k in Ids(defs) ensures k in {defs[0].0} + Ids(tail) {
      var i :| 0 <= i < |defs| && defs[i].0 == k;
      if i > 0 {
        assert tail[i - 1].0 == k;
      }
    }
    forall k | k in Ids(tail) ensures k in Ids(defs) {
      var i :| 0 <= i < |tail| && tail[i].0 == k;
      assert defs[i + 1].0 == k;
    }
  }

  lemma ConvertAllCons(defs: Definitions, now: int, rest: Store)
    requires |defs| > 0 && DistinctIds(defs) && ConvertOne(defs[0].1, now).Ok?
    requires forall i :: 0 <= i < |defs| - 1 ==> ConvertOne(defs[1..][i].1, now).Ok?
    requires rest.Keys == Ids(defs[1..])
    requires forall i :: 0 <= i < |defs| - 1 ==> rest[defs[1..][i].0] == ConvertOne(defs[1..][i].1, now).value
    ensures forall i :: 0 <= i < |defs| ==> ConvertOne(defs[i].1, now).Ok?
    ensures var r := rest[defs[0].0 := ConvertOne(defs[0].1, now).value];
      r.Keys == Ids(defs)
      && forall i :: 0 <= i < |defs| ==> r[defs[i].0] == ConvertOne(defs[i].1, now).value
  {
    TailFacts(defs);
    var r := rest[defs[0].0 := ConvertOne(defs[0].1, now).value];
    forall i | 0 <= i < |defs| ensures r[defs[i].0] == ConvertOne(defs[i].1, now).value {
      if i > 0 {
        assert defs[i].0 != defs[0].0;
        assert defs[i] == defs[1..][i - 1];
      }
    }
  }

  /** `populate_from_dict`: every definition is converted and the batch is
      committed at once; an identifier that already has a row makes the
      commit fail and nothing is written. */
  function Populate(store: Store, defs: Definitions, now: int): (r: Result<Store>)
    requires DistinctIds(defs)
    ensures r.Ok? <==> ConvertAll(defs, now).Ok? && Ids(defs) !! store.Keys
    ensures ConvertAll(defs, now).Ok? && !(Ids(defs) !! store.Keys) ==> r == Err(IntegrityError)
    ensures r.Ok? ==> r.value.Keys == store.Keys + Ids(defs)
    ensures r.Ok? ==> forall k :: k in store ==> r.value[k] == store[k]
    ensures r.Ok? ==> forall i :: 0 <= i < |defs| ==> r.value[defs[i].0] == ConvertOne(defs[i].1, now).value
  {
    match ConvertAll(defs, now)
    case Err(e) => Err(e)
    case Ok(converted) =>
      if converted.Keys !! store.Keys then Ok(store + converted) else Err(IntegrityError)
  }

  /** An imported definition of a registered type resolves, in a fresh
      manager, to a tag of that class carrying the definition's name and
      its non-reserved keys. */
  lemma ImportedTagResolves(reg: Registry, store: Store, id: string, def: map<string, Value>, now: int)
    requires id !in store
    requires "type" in def && def["type"].VStr? && def["type"].s in reg
    requires "name" in def
    requires Populate(store, [(id, VDict(def))], now).Ok?
    ensures var m := NewManager(Populate(store, [(id, VDict(def))], now).value);
      var r := Resolve(reg, m, id).result;
      r.Ok? ==> r.value.cls == reg[def["type"].s] && r.value.name == def["name"]
                && r.value.attributes == def - RESERVED
  {
    var defs := [(id, VDict(def))];
    assert defs[0].0 == id;
  }

  /** Timestamp of the most recently updated row, 0 for an empty store. */
  predicate IsLatest(store: Store, t: int) {
    if store == map[] then t == 0
    else (exists k :: k in store && store[k].lastUpdated == t)
         && (forall k :: k in store ==> store[k].lastUpdated <= t)
  }

  /** `get_last_updated_time`. */
  method LatestUpdate(store: Store) returns (t: int)
    ensures IsLatest(store, t)
  {
    if store == map[] {
      return 0;
    }
    var first :| first in store;
    t := store[first].lastUpdated;
    var seen: set<string> := {first};
    var rest := store.Keys - {first};
    while rest != {}
      invariant seen + rest == store.Keys && seen !! rest
      invariant exists k :: k in seen && store[k].lastUpdated == t
      invariant forall k :: k in seen ==> store[k].lastUpdated <= t
      decreases |rest|
    {
      var k :| k in rest;
      if store[k].lastUpdated > t {
        t := store[k].lastUpdated;
      }
      seen := seen + {k};
      rest := rest - {k};
    }
  }

  /** `should_import_file`: the file exists (its truncated modification time
      is given) and is newer than every row, and than 0 when there are none. */
  method ShouldImportFile(fileMtime: Option<int>, store: Store) returns (b: bool)
    ensures b <==> fileMtime.Some? && (forall k :: k in store ==> store[k].lastUpdated < fileMtime.value)
                   && (store == map[] ==> fileMtime.value > 0)
  {
    if fileMtime.None? {
      return false;
    }
    var last := LatestUpdate(store);
    b := fileMtime.value > last;
  }
}
