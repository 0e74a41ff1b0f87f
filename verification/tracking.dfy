/** What the list and dict wrappers (ChangeTrackingList, ChangeTrackingDict)
    share: the owner they were built for, the notification they send it,
    and the shape of one mutation's effect. */
module Tracking {
  import opened Errors
  import opened Values

  /** The object a wrapper was built for, as far as the wrapper can tell:
      whether it is truthy and whether it has a `_mark_as_changed`
      attribute. */
  datatype Owner = Owner(truthy: bool, hasHook: bool)

  /** A call of the owner's `_mark_as_changed`: with the wrapper's name
      and, from a list, the list itself as a second argument, recorded as
      its contents when the call is made. The dict passes its name alone. */
  datatype Notice = Changed(name: Option<string>, sender: Option<seq<Value>>)

  /** One mutation: the wrapper's contents afterwards, what the call
      returned or raised, and the notifications it sent on the way. */
  datatype Mutated<S, R> = Mutated(state: S, result: Result<R>, notices: seq<Notice>)

  /** A Document instance as an owner: it defines neither `__len__` nor
      `__nonzero__`, so it is truthy, and it has no `_mark_as_changed`. */
  const DocumentOwner: Owner := Owner(true, false)

  /** `_mark_as_changed`: forwards the wrapper's arguments to the owner
      only if there is one and it has the hook; otherwise nothing happens. */
  function Notify(owner: Option<Owner>, name: Option<string>, sender: Option<seq<Value>>): (r: seq<Notice>)
    ensures |r| <= 1
    ensures r != [] <==> owner.Some? && owner.value.hasHook
    ensures r != [] ==> r == [Changed(name, sender)]
  {
    if owner.Some? && owner.value.hasHook then [Changed(name, sender)] else []
  }
}
