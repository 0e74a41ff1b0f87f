/** ChangeTrackingDict: a Python dict that calls its owner's
    `_mark_as_changed(name)` before every mutation and then performs the
    plain dict operation, so the notification is sent even when the
    operation raises. Unlike the list, it always keeps its owner. */
module TrackingDict {
  import opened Errors
  import opened Values
  import opened Tracking

  /** The dict's entries, its owner and its name. */
  datatype TrackedDict = TrackedDict(entries: map<Value, Value>, owner: Owner, name: Option<string>)

  type DictStep<R> = Mutated<TrackedDict, R>

  /** The constructor: the owner is wrapped in a weak proxy, which fails
      with TypeError when there is no owner object (None). */
  function Track(entries: map<Value, Value>, owner: Option<Owner>, name: Option<string>): (r: Result<TrackedDict>)
    ensures r.Ok? <==> owner.Some?
    ensures r.Err? ==> r.error == TypeError
    ensures r.Ok? ==> r.value.entries == entries && r.value.owner == owner.value && r.value.name == name
  {
    if owner.None? then Err(TypeError) else Ok(TrackedDict(entries, owner.value, name))
  }

  /** The notifications a mutation of `d` sends: `_mark_as_changed(name)`,
      without the dict itself. */
  function Notices(d: TrackedDict): seq<Notice> {
    Notify(Some(d.owner), d.name, None)
  }

  /** `d[k] = v`: an unhashable key raises TypeError. */
  function SetItem(d: TrackedDict, k: Value, v: Value): (r: DictStep<Value>)
    ensures r.notices == Notices(d)
    ensures r.state.owner == d.owner && r.state.name == d.name
    ensures r.result.Ok? <==> Hashable(k)
    ensures r.result.Err? ==> r.result.error == TypeError && r.state == d
    ensures r.result.Ok? ==>
      r.result.value == VNone && k in r.state.entries && r.state.entries[k] == v
      && r.state.entries.Keys == d.entries.Keys + {k}
      && forall j :: j in d.entries && j != k ==> r.state.entries[j] == d.entries[j]
  {
    if !Hashable(k) then Mutated(d, Err(TypeError), Notices(d))
    else Mutated(d.(entries := d.entries[k := v]), Ok(VNone), Notices(d))
  }

  /** `del d[k]`: KeyError when `k` is absent (TypeError when it cannot be
      a key). */
  function DelItem(d: TrackedDict, k: Value): (r: DictStep<Value>)
    ensures r.notices == Notices(d)
    ensures r.state.owner == d.owner && r.state.name == d.name
    ensures r.result.Ok? <==> Hashable(k) && k in d.entries
    ensures !Hashable(k) ==> r.result == Err(TypeError)
    ensures Hashable(k) && k !in d.entries ==> r.result == Err(KeyError)
    ensures r.result.Err? ==> r.state == d
    ensures r.result.Ok? ==>
      r.result.value == VNone && r.state.entries.Keys == d.entries.Keys - {k}
      && forall j :: j in r.state.entries ==> r.state.entries[j] == d.entries[j]
  {
    if !Hashable(k) then Mutated(d, Err(TypeError), Notices(d))
    else if k !in d.entries then Mutated(d, Err(KeyError), Notices(d))
    else Mutated(d.(entries := d.entries - {k}), Ok(VNone), Notices(d))
  }

  /** `d.clear()`. */
  function Clear(d: TrackedDict): (r: DictStep<Value>)
    ensures r.notices == Notices(d)
    ensures r.state.owner == d.owner && r.state.name == d.name
    ensures r.result == Ok(VNone) && r.state.entries == map[]
  {
    Mutated(d.(entries := map[]), Ok(VNone), Notices(d))
  }

  /** `d.pop(k)` and `d.pop(k, default)`: a present key is removed and its
      value returned; an absent one gives the default when there is one and
      KeyError otherwise. CPython looks at the dict's size before hashing
      the key, so popping from an empty dict never raises TypeError, even
      for a key that cannot be hashed. */
  function Pop(d: TrackedDict, k: Value, default: Option<Value>): (r: DictStep<Value>)
    ensures r.notices == Notices(d)
    ensures r.state.owner == d.owner && r.state.name == d.name
    ensures d.entries == map[] ==>
      r.state == d && r.result == (if default.Some? then Ok(default.value) else Err(KeyError))
    ensures d.entries != map[] && !Hashable(k) ==> r.result == Err(TypeError) && r.state == d
    ensures Hashable(k) && k in d.entries ==>
      r.result == Ok(d.entries[k]) && r.state.entries == d.entries - {k}
    ensures Hashable(k) && k !in d.entries ==>
      r.state == d && r.result == (if default.Some? then Ok(default.value) else Err(KeyError))
  {
    if d.entries == map[] then
      if default.Some? then Mutated(d, Ok(default.value), Notices(d)) else Mutated(d, Err(KeyError), Notices(d))
    else if !Hashable(k) then Mutated(d, Err(TypeError), Notices(d))
    else if k in d.entries then Mutated(d.(entries := d.entries - {k}), Ok(d.entries[k]), Notices(d))
    else if default.Some? then Mutated(d, Ok(default.value), Notices(d))
    else Mutated(d, Err(KeyError), Notices(d))
  }

  /** `d.popitem()`: KeyError on an empty dict; otherwise an entry of the
      dict's choosing is removed and returned. */
  ghost function PopItem(d: TrackedDict): (r: DictStep<(Value, Value)>)
    ensures r.notices == Notices(d)
    ensures r.state.owner == d.owner && r.state.name == d.name
    ensures r.result.Ok? <==> d.entries != map[]
    ensures r.result.Err? ==> r.result.error == KeyError && r.state == d
    ensures r.result.Ok? ==>
      var (k, v) := r.result.value;
      k in d.entries && d.entries[k] == v && r.state.entries == d.entries - {k}
  {
    if d.entries == map[] then Mutated(d, Err(KeyError), Notices(d))
    else
      var k :| k in d.entries;
      Mutated(d.(entries := d.entries - {k}), Ok((k, d.entries[k])), Notices(d))
  }

  /** `d.update(other)` with a dict argument: the argument's entries win. */
  function Update(d: TrackedDict, other: map<Value, Value>): (r: DictStep<Value>)
    ensures r.notices == Notices(d)
    ensures r.state.owner == d.owner && r.state.name == d.name
    ensures r.result == Ok(VNone)
    ensures forall k :: k in r.state.entries <==> k in d.entries || k in other
    ensures forall k :: k in other ==> r.state.entries[k] == other[k]
    ensures forall k :: k in d.entries && k !in other ==> r.state.entries[k] == d.entries[k]
  {
    Mutated(d.(entries := d.entries + other), Ok(VNone), Notices(d))
  }

  /** Deleting a key just set gives back the dict without that key: the
      earlier value under it, if any, is gone too. Both calls notify. */
  lemma SetThenDelete(d: TrackedDict, k: Value, v: Value)
    requires Hashable(k)
    ensures var s := SetItem(d, k, v);
      var t := DelItem(s.state, k);
      t.result.Ok? && t.state.entries == d.entries - {k} && s.notices + t.notices == Notices(d) + Notices(d)
  {
    var s := SetItem(d, k, v);
    var t := DelItem(s.state, k);
    assert t.state.entries == d.entries - {k};
  }

  /** `pop` of a present key does to the entries what `del` does, and
      returns the value `del` discards. */
  lemma PopIsDeleteReturningValue(d: TrackedDict, k: Value, default: Option<Value>)
    requires Hashable(k) && k in d.entries
    ensures Pop(d, k, default).state == DelItem(d, k).state
    ensures Pop(d, k, default).result == Ok(d.entries[k])
  {
    assert Pop(d, k, default).state.entries == DelItem(d, k).state.entries;
  }

  /** Popping items one at a time empties the dict: each pop that succeeds
      removes exactly one entry. */
  lemma PopItemShrinks(d: TrackedDict)
    requires d.entries != map[]
    ensures |PopItem(d).state.entries| == |d.entries| - 1
  {
    var k := PopItem(d).result.value.0;
    assert PopItem(d).state.entries.Keys == d.entries.Keys - {k};
  }
}
