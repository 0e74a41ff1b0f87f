/** ChangeTrackingSet: a Python set bound to a document and a field
    descriptor. Each mutator runs the plain set method first and then
    `_set`, which stores the collapsed contents through the document's
    `set(name, value)`; the wrapper returns what the set method returned.
    When the set method raises, `_set` is not reached. */
module TrackingSet {
  import opened Errors
  import opened Values
  import opened FieldTypes
  import opened DocumentMeta
  import opened Documents

  /** The set's elements and the descriptor of the field it stands for. */
  datatype TrackedSet = TrackedSet(elems: set<Value>, field: Descriptor)

  /** How a plain set method ended: it raised (possibly after changing some
      of the set), it returned a value, or it returned NotImplemented (the
      in-place operators given something other than a set). */
  datatype BaseResult =
    | Raised(elems: set<Value>, error: Error)
    | Returned(elems: set<Value>, value: Value)
    | Declined(elems: set<Value>)

  /** The set and the document after a wrapped call, and what the call
      returned or raised. */
  datatype SetRun = SetRun(tracked: TrackedSet, doc: Doc, result: Result<Value>)

  /** `set.add(x)`: an unhashable element raises TypeError. */
  function SetAdd(s: set<Value>, x: Value): (r: BaseResult)
    ensures Hashable(x) ==> r.Returned? && r.value == VNone && x in r.elems
    ensures !Hashable(x) ==> r == Raised(s, TypeError)
    ensures forall y :: y != x ==> (y in r.elems <==> y in s)
  {
    if Hashable(x) then Returned(s + {x}, VNone) else Raised(s, TypeError)
  }

  /** `set.discard(x)`: a set argument is looked up as the equal frozenset,
      which a set of hashable elements never holds; any other unhashable
      argument raises TypeError. */
  function SetDiscard(s: set<Value>, x: Value): (r: BaseResult)
    ensures Hashable(x) ==> r.Returned? && r.value == VNone && x !in r.elems
    ensures x.VSet? ==> r == Returned(s, VNone)
    ensures !Hashable(x) && !x.VSet? ==> r == Raised(s, TypeError)
    ensures forall y :: y != x ==> (y in r.elems <==> y in s)
  {
    if Hashable(x) then Returned(s - {x}, VNone)
    else if x.VSet? then Returned(s, VNone)
    else Raised(s, TypeError)
  }

  /** `set.remove(x)`: as `discard`, but a missing element (a set argument
      included) raises KeyError. */
  function SetRemove(s: set<Value>, x: Value): (r: BaseResult)
    ensures r.Returned? <==> Hashable(x) && x in s
    ensures r.Returned? ==> r.value == VNone && x !in r.elems && forall y :: y != x ==> (y in r.elems <==> y in s)
    ensures (Hashable(x) && x !in s) || x.VSet? ==> r == Raised(s, KeyError)
    ensures !Hashable(x) && !x.VSet? ==> r == Raised(s, TypeError)
  {
    if Hashable(x) then
      if x in s then Returned(s - {x}, VNone) else Raised(s, KeyError)
    else if x.VSet? then Raised(s, KeyError)
    else Raised(s, TypeError)
  }

  /** `set.pop()`: KeyError on an empty set; otherwise some element is
      removed and returned. */
  ghost function SetPop(s: set<Value>): (r: BaseResult)
    ensures s == {} ==> r == Raised(s, KeyError)
    ensures s != {} ==> r.Returned? && r.value in s && r.elems == s - {r.value}
  {
    if s == {} then Raised(s, KeyError)
    else
      var x :| x in s;
      Returned(s - {x}, x)
  }

  /** `set.clear()`. */
  function SetClear(s: set<Value>): (r: BaseResult)
    ensures r.Returned? && r.value == VNone && r.elems == {}
  {
    Returned({}, VNone)
  }

  /** Adding the items of an iterable one at a time: the first unhashable
      item raises TypeError, with the items before it already added. */
  function AddEach(s: set<Value>, xs: seq<Value>): (r: BaseResult)
    decreases |xs|
    ensures !r.Declined?
    ensures r.Returned? <==> forall i :: 0 <= i < |xs| ==> Hashable(xs[i])
    ensures r.Raised? ==> r.error == TypeError
    ensures s <= r.elems && forall y :: y in r.elems ==> y in s || y in xs
    ensures r.Returned? ==> r.value == VNone && forall y :: y in r.elems <==> y in s || y in xs
  {
    if xs == [] then Returned(s, VNone)
    else if !Hashable(xs[0]) then Raised(s, TypeError)
    else
      var r := AddEach(s + {xs[0]}, xs[1..]);
      assert forall y :: y in xs <==> y == xs[0] || y in xs[1..];
      r
  }

  /** Discarding the items of an iterable one at a time: the first
      unhashable item raises TypeError, with the items before it already
      removed. */
  function DiscardEach(s: set<Value>, xs: seq<Value>): (r: BaseResult)
    decreases |xs|
    ensures !r.Declined?
    ensures r.Returned? <==> forall i :: 0 <= i < |xs| ==> Hashable(xs[i])
    ensures r.Raised? ==> r.error == TypeError
    ensures r.elems <= s
    ensures r.Returned? ==> r.value == VNone && forall y :: y in r.elems <==> y in s && y !in xs
  {
    if xs == [] then Returned(s, VNone)
    else if !Hashable(xs[0]) then Raised(s, TypeError)
    else
      var r := DiscardEach(s - {xs[0]}, xs[1..]);
      assert forall y :: y in xs <==> y == xs[0] || y in xs[1..];
      r
  }

  /** Whether every item is hashable. */
  predicate AllHashable(xs: seq<Value>) {
    forall i :: 0 <= i < |xs| ==> Hashable(xs[i])
  }

  /** `set.update(v)`: a set argument is added at once; anything else is
      iterated (TypeError when it is not iterable) and added item by
      item. */
  ghost function SetUpdate(s: set<Value>, v: Value): (r: BaseResult)
    ensures !r.Declined?
    ensures r.Raised? ==> r.error == TypeError
    ensures v.VSet? ==> r.Returned? && forall y :: y in r.elems <==> y in s || y in v.elems
    ensures !v.VSet? ==> (r.Returned? <==> Iterate(v).Ok? && AllHashable(Iterate(v).value))
    ensures r.Returned? ==> r.value == VNone
    ensures r.Returned? && !v.VSet? ==> forall y :: y in r.elems <==> y in s || y in Iterate(v).value
    ensures s <= r.elems
  {
    if v.VSet? then Returned(s + v.elems, VNone)
    else
      match Iterate(v)
      case Err(_) => Raised(s, TypeError)
      case Ok(xs) => AddEach(s, xs)
  }

  /** `set.difference_update(v)`: a set argument is subtracted at once;
      anything else is iterated and its items discarded one by one. */
  ghost function SetDifferenceUpdate(s: set<Value>, v: Value): (r: BaseResult)
    ensures !r.Declined?
    ensures r.Raised? ==> r.error == TypeError
    ensures v.VSet? ==> r.Returned? && forall y :: y in r.elems <==> y in s && y !in v.elems
    ensures !v.VSet? ==> (r.Returned? <==> Iterate(v).Ok? && AllHashable(Iterate(v).value))
    ensures r.Returned? ==> r.value == VNone
    ensures r.Returned? && !v.VSet? ==> forall y :: y in r.elems <==> y in s && y !in Iterate(v).value
    ensures r.elems <= s
  {
    if v.VSet? then Returned(s - v.elems, VNone)
    else
      match Iterate(v)
      case Err(_) => Raised(s, TypeError)
      case Ok(xs) => DiscardEach(s, xs)
  }

  /** The elements of a sequence, as a set. */
  function Elements(xs: seq<Value>): (r: set<Value>)
    ensures forall y :: y in r <==> y in xs
  {
    set y | y in xs
  }

  /** `set.intersection_update(v)`: the intersection is built apart and
      then swapped in, so an unhashable item leaves the set unchanged. */
  ghost function SetIntersectionUpdate(s: set<Value>, v: Value): (r: BaseResult)
    ensures !r.Declined?
    ensures r.Raised? ==> r == Raised(s, TypeError)
    ensures v.VSet? ==> r.Returned? && forall y :: y in r.elems <==> y in s && y in v.elems
    ensures !v.VSet? ==> (r.Returned? <==> Iterate(v).Ok? && AllHashable(Iterate(v).value))
    ensures r.Returned? ==> r.value == VNone
    ensures r.Returned? && !v.VSet? ==> forall y :: y in r.elems <==> y in s && y in Iterate(v).value
  {
    if v.VSet? then Returned(s * v.elems, VNone)
    else
      match Iterate(v)
      case Err(_) => Raised(s, TypeError)
      case Ok(xs) =>
        if !AllHashable(xs) then Raised(s, TypeError)
        else Returned(s * Elements(xs), VNone)
  }

  /** `set.symmetric_difference_update(v)`: the argument is first made a
      set (a set argument is used as it is), so an unhashable item leaves
      the set unchanged; then each of its elements is toggled. */
  ghost function SetSymmetricDifferenceUpdate(s: set<Value>, v: Value): (r: BaseResult)
    ensures !r.Declined?
    ensures r.Raised? ==> r == Raised(s, TypeError)
    ensures v.VSet? ==> r.Returned? && forall y :: y in r.elems <==> (y in s <==> y !in v.elems)
    ensures !v.VSet? ==> (r.Returned? <==> Iterate(v).Ok? && AllHashable(Iterate(v).value))
    ensures r.Returned? && !v.VSet? ==> forall y :: y in r.elems <==> (y in s <==> y !in Iterate(v).value)
    ensures r.Returned? ==> r.value == VNone
  {
    if v.VSet? then Returned((s - v.elems) + (v.elems - s), VNone)
    else
      match Iterate(v)
      case Err(_) => Raised(s, TypeError)
      case Ok(xs) =>
        if !AllHashable(xs) then Raised(s, TypeError)
        else
          var o := Elements(xs);
          Returned((s - o) + (o - s), VNone)
  }

  /** The in-place operators `&=`, `|=`, `-=` and `^=`. */
  datatype InPlaceOp = IAnd | IOr | ISub | IXor

  /** `set.__iand__(v)` and the others: NotImplemented unless `v` is a
      set; otherwise the matching update, returning the set itself. */
  ghost function SetInPlace(s: set<Value>, op: InPlaceOp, v: Value): (r: BaseResult)
    ensures !v.VSet? ==> r == Declined(s)
    ensures v.VSet? ==> r.Returned? && r.value == VSet(r.elems)
    ensures v.VSet? && op == IAnd ==> r.elems == s * v.elems
    ensures v.VSet? && op == IOr ==> r.elems == s + v.elems
    ensures v.VSet? && op == ISub ==> r.elems == s - v.elems
    ensures v.VSet? && op == IXor ==> forall y :: y in r.elems <==> (y in s <==> y !in v.elems)
  {
    if !v.VSet? then Declined(s)
    else
      var b := match op
        case IAnd => SetIntersectionUpdate(s, v)
        case IOr => SetUpdate(s, v)
        case ISub => SetDifferenceUpdate(s, v)
        case IXor => SetSymmetricDifferenceUpdate(s, v);
      Returned(b.elems, VSet(b.elems))
  }

  /** The wrapped methods. */
  datatype SetCall =
    | Add(x: Value)
    | Discard(x: Value)
    | Remove(x: Value)
    | Pop
    | Clear
    | Update(v: Value)
    | DifferenceUpdate(v: Value)
    | IntersectionUpdate(v: Value)
    | SymmetricDifferenceUpdate(v: Value)
    | InPlace(op: InPlaceOp, v: Value)

  /** The plain set method a call runs. */
  ghost function Base(s: set<Value>, call: SetCall): BaseResult {
    match call
    case Add(x) => SetAdd(s, x)
    case Discard(x) => SetDiscard(s, x)
    case Remove(x) => SetRemove(s, x)
    case Pop => SetPop(s)
    case Clear => SetClear(s)
    case Update(v) => SetUpdate(s, v)
    case DifferenceUpdate(v) => SetDifferenceUpdate(s, v)
    case IntersectionUpdate(v) => SetIntersectionUpdate(s, v)
    case SymmetricDifferenceUpdate(v) => SetSymmetricDifferenceUpdate(s, v)
    case InPlace(op, v) => SetInPlace(s, op, v)
  }

  /** `_set`: the collapsed contents handed to the document's `set` under
      the field's name; a collapse that raises leaves the document alone. */
  ghost function StoreBack(c: DocClass, doc: Doc, f: Descriptor, elems: set<Value>): (r: Result<Doc>)
    requires f.name.Some?
    ensures r.Ok? <==> Collapse(f, VSet(elems)).Ok?
    ensures r.Err? ==> r.error == Collapse(f, VSet(elems)).error
    ensures r.Ok? ==>
      Get(r.value, f.name.value) == Collapse(f, VSet(elems)).value
      && (forall k :: k != f.name.value ==> Get(r.value, k) == Get(doc, k))
      && (Collapse(f, VSet(elems)).value != VNone ==> r.value.dirty == doc.dirty + {f.name.value})
  {
    var v :- Collapse(f, VSet(elems));
    Ok(Set(c, doc, f.name.value, v))
  }

  /** A wrapped call: the set method, then (unless it raised) `_set`, then
      the set method's return value. A NotImplemented from an in-place
      operator still goes through `_set`; the interpreter then finds no
      other way to apply the operator and raises TypeError. */
  ghost function Call(c: DocClass, doc: Doc, t: TrackedSet, call: SetCall): (r: SetRun)
    requires t.field.name.Some?
    ensures r.tracked == t.(elems := Base(t.elems, call).elems)
    ensures Base(t.elems, call).Raised? ==> r.doc == doc && r.result == Err(Base(t.elems, call).error)
    ensures !Base(t.elems, call).Raised? ==>
      var stored := StoreBack(c, doc, t.field, Base(t.elems, call).elems);
      (stored.Err? ==> r.doc == doc && r.result == Err(stored.error))
      && (stored.Ok? ==> r.doc == stored.value)
      && (stored.Ok? && Base(t.elems, call).Returned? ==> r.result == Ok(Base(t.elems, call).value))
      && (stored.Ok? && Base(t.elems, call).Declined? ==> r.result == Err(TypeError))
  {
    var b := Base(t.elems, call);
    var t' := t.(elems := b.elems);
    match b
    case Raised(_, e) => SetRun(t', doc, Err(e))
    case Returned(_, v) =>
      (match StoreBack(c, doc, t.field, b.elems)
       case Err(e) => SetRun(t', doc, Err(e))
       case Ok(d) => SetRun(t', d, Ok(v)))
    case Declined(_) =>
      (match StoreBack(c, doc, t.field, b.elems)
       case Err(e) => SetRun(t', doc, Err(e))
       case Ok(d) => SetRun(t', d, Err(TypeError)))
  }

  /** For a SetField the stored form is a list, never None, so every call
      that gets past the set method and the collapse marks the field dirty
      and stores the list of collapsed elements. */
  lemma SetFieldStoresList(c: DocClass, doc: Doc, t: TrackedSet, call: SetCall)
    requires t.field.name.Some? && t.field.kind.SetOf?
    requires !Base(t.elems, call).Raised? && Collapse(t.field, VSet(Base(t.elems, call).elems)).Ok?
    ensures var r := Call(c, doc, t, call);
      var name := t.field.name.value;
      name in r.doc.dirty && Get(r.doc, name).VList?
      && Get(r.doc, name) == Collapse(t.field, VSet(r.tracked.elems)).value
      && forall k :: k != name ==> Get(r.doc, k) == Get(doc, k)
  {
    var v := Collapse(t.field, VSet(Base(t.elems, call).elems)).value;
    assert v.VList?;
  }

  /** An in-place operator given something other than a set raises
      TypeError, yet the field has already been stored again and, for a
      SetField, marked dirty. */
  lemma DeclinedOperatorStillStores(c: DocClass, doc: Doc, t: TrackedSet, op: InPlaceOp, v: Value)
    requires t.field.name.Some? && t.field.kind.SetOf? && !v.VSet?
    requires Collapse(t.field, VSet(t.elems)).Ok?
    ensures var r := Call(c, doc, t, InPlace(op, v));
      r.result == Err(TypeError) && r.tracked == t && t.field.name.value in r.doc.dirty
  {
    SetFieldStoresList(c, doc, t, InPlace(op, v));
  }

  /** Each in-place operator on a set operand changes the contents exactly
      as the method of the same meaning does. */
  lemma InPlaceMatchesMethods(s: set<Value>, v: Value)
    requires v.VSet?
    ensures Base(s, InPlace(IOr, v)).elems == Base(s, Update(v)).elems
    ensures Base(s, InPlace(IAnd, v)).elems == Base(s, IntersectionUpdate(v)).elems
    ensures Base(s, InPlace(ISub, v)).elems == Base(s, DifferenceUpdate(v)).elems
    ensures Base(s, InPlace(IXor, v)).elems == Base(s, SymmetricDifferenceUpdate(v)).elems
  {
  }

  /** Adding an element that was not there and then removing it gives the
      original contents back. */
  lemma AddThenRemove(s: set<Value>, x: Value)
    requires Hashable(x) && x !in s
    ensures SetAdd(s, x).Returned?
    ensures SetRemove(SetAdd(s, x).elems, x) == Returned(s, VNone)
  {
    assert SetRemove(SetAdd(s, x).elems, x).elems == s;
  }
}
