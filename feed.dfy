/**
 * What the item index exchanges with its collaborators: the feed API calls it
 * issues and the listener callbacks it makes.
 */
module Feed {
  import opened Wrappers
  import opened Items

  /** A call of the Zeitgeist feed API. */
  datatype ApiCall =
    | List
    | ListAfter(after: Id)
    | ListBefore(before: Id)
    | ListByTag(tag: string)
    | ListByTagAfter(tag: string, after: Id)
    | ListByTagBefore(tag: string, before: Id)
    | Update(id: Id, tags: string)
  {
    /** The tag the listing is scoped to, if any. */
    function Scope(): Option<string> {
      if ListByTag? || ListByTagAfter? || ListByTagBefore? then Some(tag) else None
    }
  }

  /**
   * The listing call for a page query: scoped to the tag filter when one is set;
   * then `after`, when it is an id (> -1), wins over `before`; with neither, the newest page.
   */
  function SelectCall(tag: Option<string>, after: int, before: int): (c: ApiCall)
    ensures c.Scope() == tag
    ensures after > -1 ==> c.ListAfter? || c.ListByTagAfter?
    ensures (c.ListAfter? || c.ListByTagAfter?) ==> c.after == after
    ensures after <= -1 && before > -1 ==> c.ListBefore? || c.ListByTagBefore?
    ensures (c.ListBefore? || c.ListByTagBefore?) ==> c.before == before && after <= -1
    ensures after <= -1 && before <= -1 ==> c.List? || c.ListByTag?
  {
    match tag
    case Some(t) =>
      if after > -1 then ListByTagAfter(t, after)
      else if before > -1 then ListByTagBefore(t, before)
      else ListByTag(t)
    case None =>
      if after > -1 then ListAfter(after)
      else if before > -1 then ListBefore(before)
      else List
  }

  /** Listeners are opaque handles; the model records which one was called with what. */
  type ListenerId = nat

  /** What an updated-items listener is told: the new page (null after a filter change), or an error message. */
  datatype Signal = Updated(newItems: Option<seq<Item>>) | Failed(message: string)

  /** One callback invocation. */
  datatype Event =
    | ItemsEvent(listener: ListenerId, signal: Signal)
    | TagsUpdated(tagListener: ListenerId, item: Item)
    | TagsFailed(tagListener: ListenerId, message: string)

  /** One `signal` to every listener, in registration order. */
  function Notify(listeners: seq<ListenerId>, signal: Signal): (r: seq<Event>)
    ensures |r| == |listeners|
    ensures forall i :: 0 <= i < |listeners| ==> r[i] == ItemsEvent(listeners[i], signal)
  {
    if listeners == [] then []
    else Notify(listeners[..|listeners| - 1], signal) + [ItemsEvent(listeners[|listeners| - 1], signal)]
  }
}
