/** `WebhookPlugin` (musicfig/plugins/webhook.py): posts to the tag's URLs
    and reports the outcome. Whether the HTTP post raises is an input. */
module WebhookPlugin {
  import opened Values
  import opened Colors
  import opened Codec
  import opened Tags
  import opened Bus
  import opened Plugins

  /** The plugin object: `super().__init__(WebhookTag)`. */
  function Instance(): (r: Result<Plugin>)
    ensures r == Ok(Plugin(Some(WebhookTag), PURPLE))
  {
    NewPlugin(Some(NfcTagSubclass(WebhookTag)))
  }

  /** One `post_json(url, body)` call. */
  datatype Post = Post(url: Value, body: Value)

  /** What a hook did: the posts it made and the events it published. */
  datatype Handled = Handled(posts: seq<Post>, published: seq<Event>)

  /** `on_tag_added`. */
  function OnTagAdded(ev: TagEvent, tag: Tag, postRaises: bool): (r: Handled)
    ensures !tag.kind.Webhook? ==> r == Handled([], [])
    ensures tag.kind.Webhook? ==>
              r.posts == [Post(tag.kind.addedUrl, tag.kind.addedPostJson)]
              && |r.published| == 1 && r.published[0].ev == ev
              && (postRaises <==> Topic(r.published[0]) == ADD_ERROR)
              && (!postRaises <==> Topic(r.published[0]) == ADD_SUCCESS)
    ensures tag.kind.Webhook? && !postRaises ==> r.published == [AddSuccess(ev, Some(PURPLE))]
  {
    match tag.kind
    case Webhook(addedUrl, addedPostJson, _, _) =>
      var post := [Post(addedUrl, addedPostJson)];
      if postRaises then Handled(post, DispatchAddError(ev))
      else Handled(post, DispatchAddSuccess(Instance().value, ev))
    case _ => Handled([], [])
  }

  /** `on_tag_removed`: nothing happens unless the tag is a webhook tag with
      a removal URL. */
  function OnTagRemoved(ev: TagEvent, tag: Tag, postRaises: bool): (r: Handled)
    ensures !tag.kind.Webhook? || tag.kind.removedUrl == VNull ==> r == Handled([], [])
    ensures tag.kind.Webhook? && tag.kind.removedUrl != VNull ==>
              r.posts == [Post(tag.kind.removedUrl, tag.kind.removedPostJson)]
              && |r.published| == 1 && r.published[0].ev == ev
              && (postRaises <==> Topic(r.published[0]) == REMOVE_ERROR)
              && (!postRaises <==> Topic(r.published[0]) == REMOVE_SUCCESS)
  {
    match tag.kind
    case Webhook(_, _, removedUrl, removedPostJson) =>
      if removedUrl == VNull then Handled([], [])
      else
        var post := [Post(removedUrl, removedPostJson)];
        if postRaises then Handled(post, DispatchRemoveError(ev))
        else Handled(post, DispatchRemoveSuccess(ev))
    case _ => Handled([], [])
  }

  /** Every post a hook makes is answered by exactly one published event,
      and a hook that makes no post publishes nothing. */
  lemma OnePostOneEvent(ev: TagEvent, tag: Tag, postRaises: bool)
    ensures |OnTagAdded(ev, tag, postRaises).posts| == |OnTagAdded(ev, tag, postRaises).published| <= 1
    ensures |OnTagRemoved(ev, tag, postRaises).posts| == |OnTagRemoved(ev, tag, postRaises).published| <= 1
  {
  }

  /** A tag built by the manager is handled exactly when it is of the
      plugin's class. */
  lemma HandlesOnlyWebhookTags(c: TagClass, serial: nat, id: string, name: Value, desc: Value,
                               attrs: Attributes, ev: TagEvent, postRaises: bool)
    requires Construct(c, serial, id, name, desc, attrs).Ok?
    ensures var t := Construct(c, serial, id, name, desc, attrs).value;
      OnTagAdded(ev, t, postRaises).published != [] <==> c == WebhookTag
  {
  }
}
