/** The publish/subscribe messages the loop and the plugins exchange. A
    publication is modelled as one entry appended to an event log; which
    subscribers receive it, and in what order, is not modelled. */
module Bus {
  import opened Values
  import opened Colors
  import opened Codec
  import opened Tags

  datatype Event =
    | TagAdded(ev: TagEvent, tag: Tag)
    | TagRemoved(ev: TagEvent, tag: Tag)
    | AddSuccess(ev: TagEvent, color: Option<Color>)
    | AddError(ev: TagEvent)
    | RemoveSuccess(ev: TagEvent)
    | RemoveError(ev: TagEvent)

  const TAG_ADDED: string := "tag.added"
  const TAG_REMOVED: string := "tag.removed"
  const ADD_SUCCESS: string := "handler_response.add.success"
  const ADD_ERROR: string := "handler_response.add.error"
  const REMOVE_SUCCESS: string := "handler_response.remove.success"
  const REMOVE_ERROR: string := "handler_response.remove.error"

  /** The topic an event is published on. */
  function Topic(e: Event): string {
    match e
    case TagAdded(_, _) => TAG_ADDED
    case TagRemoved(_, _) => TAG_REMOVED
    case AddSuccess(_, _) => ADD_SUCCESS
    case AddError(_) => ADD_ERROR
    case RemoveSuccess(_) => REMOVE_SUCCESS
    case RemoveError(_) => REMOVE_ERROR
  }

  /** A handler's reply to a tag event, as opposed to the tag events the
      loop itself publishes. */
  predicate IsResponse(e: Event) {
    !(e.TagAdded? || e.TagRemoved?)
  }

  /** Distinct kinds of event travel on distinct topics, so a subscriber to
      one topic sees exactly one kind. */
  lemma TopicsSeparateKinds(a: Event, b: Event)
    ensures Topic(a) == Topic(b) <==>
      (a.TagAdded? && b.TagAdded?) || (a.TagRemoved? && b.TagRemoved?)
      || (a.AddSuccess? && b.AddSuccess?) || (a.AddError? && b.AddError?)
      || (a.RemoveSuccess? && b.RemoveSuccess?) || (a.RemoveError? && b.RemoveError?)
  {
  }
}
