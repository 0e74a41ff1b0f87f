/** ChangeTrackingList: a Python list that calls its owner's
    `_mark_as_changed(name, self)` before every mutation and then performs
    the plain list operation. The notification comes first, so it is sent
    even when the list operation then raises. */
module TrackingList {
  import opened Errors
  import opened Values
  import opened Tracking
  import opened FieldTypes
  import opened DocumentMeta
  import opened Documents
  import opened Access

  /** The list's items, the owner it keeps (only a truthy one is kept) and
      its name. */
  datatype TrackedList = TrackedList(items: seq<Value>, owner: Option<Owner>, name: Option<string>)

  type ListStep = Mutated<TrackedList, Value>

  /** The constructor: a copy of the items; the owner is kept only if it is
      truthy. */
  function Track(items: seq<Value>, owner: Owner, name: Option<string>): (r: TrackedList)
    ensures r.items == items && r.name == name
    ensures r.owner.Some? <==> owner.truthy
    ensures r.owner.Some? ==> r.owner.value == owner
  {
    TrackedList(items, if owner.truthy then Some(owner) else None, name)
  }

  /** The notifications a mutation of `l` sends: `_mark_as_changed(name,
      self)`, made before the mutation, so the list it passes still has its
      earlier contents. */
  function Notices(l: TrackedList): seq<Notice> {
    Notify(l.owner, l.name, Some(l.items))
  }

  /** Python's reading of a list index: a negative index counts from the
      end. */
  function Position(i: int, n: nat): int {
    if i < 0 then i + n else i
  }

  /** Whether index `i` names an element of a list of length `n`. */
  predicate InRange(i: int, n: nat) {
    0 <= Position(i, n) < n
  }

  /** The list without the element at `j`. */
  function Without(s: seq<Value>, j: nat): (r: seq<Value>)
    requires j < |s|
    ensures |r| == |s| - 1
    ensures forall k :: 0 <= k < j ==> r[k] == s[k]
    ensures forall k :: j <= k < |r| ==> r[k] == s[k + 1]
    ensures multiset(r) + multiset{s[j]} == multiset(s)
  {
    assert s == s[..j] + [s[j]] + s[j + 1..];
    s[..j] + s[j + 1..]
  }

  /** `l[i] = v`: IndexError outside the list, otherwise that one element
      replaced. */
  function SetItem(l: TrackedList, i: int, v: Value): (r: ListStep)
    ensures r.notices == Notices(l)
    ensures r.state.owner == l.owner && r.state.name == l.name
    ensures r.result.Ok? <==> InRange(i, |l.items|)
    ensures r.result.Err? ==> r.result.error == IndexError && r.state == l
    ensures r.result.Ok? ==>
      r.result.value == VNone && |r.state.items| == |l.items| && r.state.items[Position(i, |l.items|)] == v
      && forall k :: 0 <= k < |l.items| && k != Position(i, |l.items|) ==> r.state.items[k] == l.items[k]
  {
    var n := |l.items|;
    if !InRange(i, n) then Mutated(l, Err(IndexError), Notices(l))
    else Mutated(l.(items := l.items[Position(i, n) := v]), Ok(VNone), Notices(l))
  }

  /** `del l[i]`: IndexError outside the list, otherwise the element
      removed and the rest closing up. */
  function DelItem(l: TrackedList, i: int): (r: ListStep)
    ensures r.notices == Notices(l)
    ensures r.state.owner == l.owner && r.state.name == l.name
    ensures r.result.Ok? <==> InRange(i, |l.items|)
    ensures r.result.Err? ==> r.result.error == IndexError && r.state == l
    ensures r.result.Ok? ==>
      r.result.value == VNone && |r.state.items| == |l.items| - 1
      && multiset(r.state.items) + multiset{l.items[Position(i, |l.items|)]} == multiset(l.items)
  {
    var n := |l.items|;
    if !InRange(i, n) then Mutated(l, Err(IndexError), Notices(l))
    else Mutated(l.(items := Without(l.items, Position(i, n))), Ok(VNone), Notices(l))
  }

  /** `l.append(x)`. */
  function Append(l: TrackedList, x: Value): (r: ListStep)
    ensures r.notices == Notices(l)
    ensures r.state.owner == l.owner && r.state.name == l.name
    ensures r.result == Ok(VNone)
    ensures |r.state.items| == |l.items| + 1 && r.state.items[|l.items|] == x
    ensures r.state.items[..|l.items|] == l.items
  {
    Mutated(l.(items := l.items + [x]), Ok(VNone), Notices(l))
  }

  /** `l.extend(v)`: the items `v` iterates to are added at the end; a value
      that is not iterable raises TypeError and leaves the list alone. */
  ghost function Extend(l: TrackedList, v: Value): (r: ListStep)
    ensures r.notices == Notices(l)
    ensures r.state.owner == l.owner && r.state.name == l.name
    ensures r.result.Ok? <==> Iterate(v).Ok?
    ensures r.result.Err? ==> r.result.error == TypeError && r.state == l
    ensures v.VList? ==> r.state.items == l.items + v.items
    ensures r.result.Ok? ==>
      |r.state.items| == |l.items| + |Iterate(v).value| && r.state.items[..|l.items|] == l.items
      && r.state.items[|l.items|..] == Iterate(v).value
  {
    match Iterate(v)
    case Err(e) => Mutated(l, Err(e), Notices(l))
    case Ok(xs) =>
      assert (l.items + xs)[..|l.items|] == l.items;
      assert (l.items + xs)[|l.items|..] == xs;
      Mutated(l.(items := l.items + xs), Ok(VNone), Notices(l))
  }

  /** Where `insert(i, x)` puts `x` in a list of length `n`: a negative
      index counts from the end, and the result is clamped into `0..n`. */
  function InsertPosition(i: int, n: nat): (p: nat)
    ensures p <= n
    ensures 0 <= i <= n ==> p == i
    ensures i > n ==> p == n
    ensures i < 0 <= i + n ==> p == i + n
    ensures i + n < 0 ==> p == 0
  {
    var j := Position(i, n);
    if j < 0 then 0 else if j > n then n else j
  }

  /** `s` with `x` placed at position `p`. */
  function InsertAt(s: seq<Value>, p: nat, x: Value): (r: seq<Value>)
    requires p <= |s|
    ensures |r| == |s| + 1 && r[p] == x
    ensures forall k :: 0 <= k < p ==> r[k] == s[k]
    ensures forall k :: p < k < |r| ==> r[k] == s[k - 1]
    ensures multiset(r) == multiset(s) + multiset{x}
  {
    assert s == s[..p] + s[p..];
    s[..p] + [x] + s[p..]
  }

  /** `l.insert(i, x)`: never raises. */
  function Insert(l: TrackedList, i: int, x: Value): (r: ListStep)
    ensures r.notices == Notices(l)
    ensures r.state.owner == l.owner && r.state.name == l.name
    ensures r.result == Ok(VNone)
    ensures var p := InsertPosition(i, |l.items|);
      |r.state.items| == |l.items| + 1 && r.state.items[p] == x
      && (forall k :: 0 <= k < p ==> r.state.items[k] == l.items[k])
      && (forall k :: p < k < |r.state.items| ==> r.state.items[k] == l.items[k - 1])
    ensures multiset(r.state.items) == multiset(l.items) + multiset{x}
  {
    Mutated(l.(items := InsertAt(l.items, InsertPosition(i, |l.items|), x)), Ok(VNone), Notices(l))
  }

  /** `l.pop(i)` (`i` is -1 when omitted): IndexError on an empty list or
      outside it; otherwise the element at `i` is removed and returned. */
  function Pop(l: TrackedList, i: int): (r: ListStep)
    ensures r.notices == Notices(l)
    ensures r.state.owner == l.owner && r.state.name == l.name
    ensures r.result.Ok? <==> InRange(i, |l.items|)
    ensures l.items == [] ==> r.result == Err(IndexError)
    ensures r.result.Err? ==> r.result.error == IndexError && r.state == l
    ensures r.result.Ok? ==>
      r.result.value == l.items[Position(i, |l.items|)] && |r.state.items| == |l.items| - 1
      && multiset(r.state.items) + multiset{r.result.value} == multiset(l.items)
  {
    var n := |l.items|;
    if !InRange(i, n) then Mutated(l, Err(IndexError), Notices(l))
    else
      var j := Position(i, n);
      Mutated(l.(items := Without(l.items, j)), Ok(l.items[j]), Notices(l))
  }

  /** The index of the first occurrence of `x` in `s`. */
  function FirstIndex(s: seq<Value>, x: Value): (j: nat)
    requires x in s
    ensures j < |s| && s[j] == x && x !in s[..j]
  {
    if s[0] == x then 0
    else
      var j := FirstIndex(s[1..], x);
      assert s[..j + 1] == [s[0]] + s[1..][..j];
      j + 1
  }

  /** `l.remove(x)`: ValueError when `x` is absent, otherwise its first
      occurrence is removed. */
  function Remove(l: TrackedList, x: Value): (r: ListStep)
    ensures r.notices == Notices(l)
    ensures r.state.owner == l.owner && r.state.name == l.name
    ensures r.result.Ok? <==> x in l.items
    ensures r.result.Err? ==> r.result.error == ValueError && r.state == l
    ensures r.result.Ok? ==>
      r.result.value == VNone && |r.state.items| == |l.items| - 1
      && multiset(r.state.items) + multiset{x} == multiset(l.items)
      && exists j :: 0 <= j < |l.items| && l.items[j] == x && x !in l.items[..j] && r.state.items == l.items[..j] + l.items[j + 1..]
  {
    if x !in l.items then Mutated(l, Err(ValueError), Notices(l))
    else
      var j := FirstIndex(l.items, x);
      Mutated(l.(items := Without(l.items, j)), Ok(VNone), Notices(l))
  }

  /** The items in reverse order. */
  function Reversed(s: seq<Value>): (r: seq<Value>)
    ensures |r| == |s|
    ensures forall k :: 0 <= k < |s| ==> r[k] == s[|s| - 1 - k]
  {
    if s == [] then [] else Reversed(s[1..]) + [s[0]]
  }

  /** `l.reverse()`. */
  function Reverse(l: TrackedList): (r: ListStep)
    ensures r.notices == Notices(l)
    ensures r.state.owner == l.owner && r.state.name == l.name
    ensures r.result == Ok(VNone)
    ensures |r.state.items| == |l.items|
    ensures forall k :: 0 <= k < |l.items| ==> r.state.items[k] == l.items[|l.items| - 1 - k]
  {
    Mutated(l.(items := Reversed(l.items)), Ok(VNone), Notices(l))
  }

  /** Reversing keeps the elements: the result is a permutation. */
  lemma {:induction false} ReversedPermutes(s: seq<Value>)
    ensures multiset(Reversed(s)) == multiset(s)
  {
    if s != [] {
      ReversedPermutes(s[1..]);
      assert s == [s[0]] + s[1..];
    }
  }

  /** Reversing twice gives the list back. */
  lemma ReverseTwice(l: TrackedList)
    ensures Reverse(Reverse(l).state).state == l
  {
    var r := Reverse(Reverse(l).state).state;
    assert r.items == l.items;
  }

  /** Whether `s` is in non-decreasing order for `le`. */
  predicate Ordered(s: seq<Value>, le: (Value, Value) -> bool) {
    forall k :: 0 < k < |s| ==> le(s[k - 1], s[k])
  }

  /** Whether `le` orders any two values one way or the other, as Python 2
      comparison does. */
  ghost predicate Total(le: (Value, Value) -> bool) {
    forall a, b :: le(a, b) || le(b, a)
  }

  /** `x` placed before the first element it is not greater than. */
  function InsertOrdered(x: Value, s: seq<Value>, le: (Value, Value) -> bool): (r: seq<Value>)
    ensures multiset(r) == multiset(s) + multiset{x}
    ensures |r| == |s| + 1
    ensures r[0] == x || (s != [] && r[0] == s[0])
  {
    if s == [] || le(x, s[0]) then [x] + s
    else
      assert s == [s[0]] + s[1..];
      [s[0]] + InsertOrdered(x, s[1..], le)
  }

  /** A stable insertion sort under `le`. */
  function Sorted(s: seq<Value>, le: (Value, Value) -> bool): (r: seq<Value>)
    ensures multiset(r) == multiset(s)
    ensures |r| == |s|
  {
    if s == [] then []
    else
      assert s == [s[0]] + s[1..];
      InsertOrdered(s[0], Sorted(s[1..], le), le)
  }

  /** Inserting into an ordered list keeps it ordered. */
  lemma {:induction false} InsertOrderedKeepsOrder(x: Value, s: seq<Value>, le: (Value, Value) -> bool)
    requires Total(le) && Ordered(s, le)
    ensures Ordered(InsertOrdered(x, s, le), le)
  {
    if s != [] && !le(x, s[0]) {
      var t := InsertOrdered(x, s[1..], le);
      InsertOrderedKeepsOrder(x, s[1..], le);
      assert le(s[0], x);
      assert |s| > 1 ==> le(s[0], s[1]);
      var r := [s[0]] + t;
      forall k | 0 < k < |r| ensures le(r[k - 1], r[k]) {
        if k > 1 {
          assert r[k - 1] == t[k - 2] && r[k] == t[k - 1];
        }
      }
    }
  }

  /** Sorting yields an ordered list when the comparison is total. */
  lemma {:induction false} SortedIsOrdered(s: seq<Value>, le: (Value, Value) -> bool)
    requires Total(le)
    ensures Ordered(Sorted(s, le), le)
  {
    if s != [] {
      SortedIsOrdered(s[1..], le);
      InsertOrderedKeepsOrder(s[0], Sorted(s[1..], le), le);
    }
  }

  /** Whether `le` is transitive, as a consistent comparison is. */
  ghost predicate Transitive(le: (Value, Value) -> bool) {
    forall a, b, c :: le(a, b) && le(b, c) ==> le(a, c)
  }

  /** Whether `a` and `b` compare equal under `le`. */
  predicate Tied(le: (Value, Value) -> bool, a: Value, b: Value) {
    le(a, b) && le(b, a)
  }

  /** The elements of `s` that compare equal to `v`, in their order. */
  function TiedWith(s: seq<Value>, le: (Value, Value) -> bool, v: Value): (r: seq<Value>)
    ensures |r| <= |s|
  {
    if s == [] then []
    else (if Tied(le, s[0], v) then [s[0]] else []) + TiedWith(s[1..], le, v)
  }

  /** Selecting from a list with a first element. */
  lemma TiedCons(a: Value, t: seq<Value>, le: (Value, Value) -> bool, v: Value)
    ensures TiedWith([a] + t, le, v) == (if Tied(le, a, v) then [a] else []) + TiedWith(t, le, v)
  {
    assert ([a] + t)[1..] == t;
  }

  /** Inserting `x` puts it before every element that compares equal to
      it. */
  lemma {:induction false} InsertOrderedTied(x: Value, s: seq<Value>, le: (Value, Value) -> bool, v: Value)
    requires Tied(le, x, v) ==> forall y :: Tied(le, y, v) ==> le(x, y)
    ensures TiedWith(InsertOrdered(x, s, le), le, v) == (if Tied(le, x, v) then [x] else []) + TiedWith(s, le, v)
    decreases |s|, 1
  {
    if s == [] || le(x, s[0]) {
      TiedCons(x, s, le, v);
    } else {
      InsertOrderedTiedStep(x, s, le, v);
    }
  }

  /** The step of that proof where `x` goes after the first element. */
  lemma {:induction false} InsertOrderedTiedStep(x: Value, s: seq<Value>, le: (Value, Value) -> bool, v: Value)
    requires Tied(le, x, v) ==> forall y :: Tied(le, y, v) ==> le(x, y)
    requires s != [] && !le(x, s[0])
    ensures TiedWith(InsertOrdered(x, s, le), le, v) == (if Tied(le, x, v) then [x] else []) + TiedWith(s, le, v)
    decreases |s|, 0
  {
    var head := if Tied(le, x, v) then [x] else [];
    var first := if Tied(le, s[0], v) then [s[0]] else [];
    var rest := TiedWith(s[1..], le, v);
    var tail := InsertOrdered(x, s[1..], le);
    assert InsertOrdered(x, s, le) == [s[0]] + tail;
    InsertOrderedTied(x, s[1..], le, v);
    TiedCons(s[0], tail, le, v);
    assert TiedWith(s, le, v) == first + rest;
    // `s[0]` is not tied with `v` when `x` is, or `x` would go before it.
    assert head == [] || first == [];
    SwapEmpty(first, head, rest);
  }

  /** An empty part can be moved across a concatenation. */
  lemma SwapEmpty(a: seq<Value>, b: seq<Value>, c: seq<Value>)
    requires a == [] || b == []
    ensures a + (b + c) == b + (a + c)
  {
  }

  /** The sort is stable: the elements that compare equal to any `v` keep
      their relative order. */
  lemma {:induction false} SortedIsStable(s: seq<Value>, le: (Value, Value) -> bool, v: Value)
    requires Transitive(le)
    ensures TiedWith(Sorted(s, le), le, v) == TiedWith(s, le, v)
  {
    if s != [] {
      SortedIsStable(s[1..], le, v);
      assert Tied(le, s[0], v) ==> forall y :: Tied(le, y, v) ==> le(s[0], y);
      InsertOrderedTied(s[0], Sorted(s[1..], le), le, v);
    }
  }

  /** `l.sort()`, with `le` standing for the interpreter's comparison. */
  function Sort(l: TrackedList, le: (Value, Value) -> bool): (r: ListStep)
    ensures r.notices == Notices(l)
    ensures r.state.owner == l.owner && r.state.name == l.name
    ensures r.result == Ok(VNone)
    ensures multiset(r.state.items) == multiset(l.items) && |r.state.items| == |l.items|
    ensures Total(le) ==> Ordered(r.state.items, le)
    ensures Transitive(le) ==> forall v :: TiedWith(r.state.items, le, v) == TiedWith(l.items, le, v)
  {
    var items := Sorted(l.items, le);
    assert Transitive(le) ==> forall v :: TiedWith(items, le, v) == TiedWith(l.items, le, v) by {
      if Transitive(le) {
        forall v ensures TiedWith(items, le, v) == TiedWith(l.items, le, v) {
          SortedIsStable(l.items, le, v);
        }
      }
    }
    assert Total(le) ==> Ordered(items, le) by {
      if Total(le) {
        SortedIsOrdered(l.items, le);
      }
    }
    Mutated(l.(items := items), Ok(VNone), Notices(l))
  }

  /** The list methods, as a script to run against a tracked list. */
  datatype ListCall =
    | SetItemCall(i: int, v: Value)
    | DelItemCall(i: int)
    | AppendCall(x: Value)
    | ExtendCall(v: Value)
    | InsertCall(i: int, x: Value)
    | PopCall(i: int)
    | RemoveCall(x: Value)
    | ReverseCall
    | SortCall(le: (Value, Value) -> bool)

  /** One call. */
  ghost function Apply(l: TrackedList, call: ListCall): (r: ListStep)
    ensures r.notices == Notices(l)
    ensures r.state.owner == l.owner && r.state.name == l.name
  {
    match call
    case SetItemCall(i, v) => SetItem(l, i, v)
    case DelItemCall(i) => DelItem(l, i)
    case AppendCall(x) => Append(l, x)
    case ExtendCall(v) => Extend(l, v)
    case InsertCall(i, x) => Insert(l, i, x)
    case PopCall(i) => Pop(l, i)
    case RemoveCall(x) => Remove(l, x)
    case ReverseCall => Reverse(l)
    case SortCall(le) => Sort(l, le)
  }

  /** A script of calls, each on the list the previous left, going on past
      calls that raised (the caller caught the exception); the notices of
      all calls in order. */
  ghost function Replay(l: TrackedList, calls: seq<ListCall>): (r: (TrackedList, seq<Notice>))
  {
    if calls == [] then (l, [])
    else
      var n := |calls| - 1;
      var (m, ns) := Replay(l, calls[..n]);
      var s := Apply(m, calls[n]);
      (s.state, ns + s.notices)
  }

  /** Every call notifies the owner once, whether or not it raised, when the
      owner has the hook, passing the list's name and the list as that call
      found it; none ever does otherwise. */
  lemma {:induction false} ReplayNotices(l: TrackedList, calls: seq<ListCall>)
    ensures Replay(l, calls).0.owner == l.owner && Replay(l, calls).0.name == l.name
    ensures |Replay(l, calls).1| == if l.owner.Some? && l.owner.value.hasHook then |calls| else 0
    ensures forall i :: 0 <= i < |Replay(l, calls).1| ==>
      Replay(l, calls).1[i] == Changed(l.name, Some(Replay(l, calls[..i]).0.items))
  {
    if calls != [] {
      var n := |calls| - 1;
      var init := calls[..n];
      ReplayNotices(l, init);
      var m := Replay(l, init).0;
      var ns := Replay(l, init).1;
      var s := Apply(m, calls[n]);
      assert Replay(l, calls) == (s.state, ns + s.notices);
      assert s.notices == Notices(m);
      forall i | 0 <= i < |ns + s.notices|
        ensures (ns + s.notices)[i] == Changed(l.name, Some(Replay(l, calls[..i]).0.items))
      {
        if i < |ns| {
          assert init[..i] == calls[..i];
        } else {
          assert calls[..i] == init;
        }
      }
    }
  }

  /** `ListField.__get__` on a document, for a list or set field: a
      tracked list over the field's contents (`value or []`), owned by the
      document. */
  ghost function FieldList(f: Descriptor, doc: Doc): (r: Result<TrackedList>)
    requires IsContainer(f.kind)
    ensures r.Ok? <==> ListGet(f, doc).Ok?
    ensures r.Ok? ==> r.value == TrackedList(ListGet(f, doc).value, Some(DocumentOwner), f.name)
  {
    var items :- ListGet(f, doc);
    Ok(Track(items, DocumentOwner, f.name))
  }

  /** A list read from a document field never tells the document anything:
      whatever is done to it, no notification is sent, so the document's
      attributes, dirty keys and pending operations stay as they were. */
  lemma FieldListChangesNothing(f: Descriptor, doc: Doc, calls: seq<ListCall>)
    requires IsContainer(f.kind) && FieldList(f, doc).Ok?
    ensures Replay(FieldList(f, doc).value, calls).1 == []
  {
    ReplayNotices(FieldList(f, doc).value, calls);
  }
}
