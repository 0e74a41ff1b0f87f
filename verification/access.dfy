/** Attribute access on a Document instance through the field descriptors
    the metaclass installs (Field.__get__/__set__, ListField.__get__,
    Document.__setattr__, Document.identity). */
module Access {
  import opened Errors
  import opened Values
  import opened FieldTypes
  import opened KeyMapping
  import opened DocumentMeta
  import opened Documents
  import FieldLemmas

  /** Every descriptor of the class is named after its field, as the
      metaclass builds them. */
  ghost predicate NamedFields(c: DocClass) {
    forall n :: n in c.fieldTypes ==> c.fieldTypes[n].name == Some(n)
  }

  /** The stored value a descriptor reads: `obj.get(self.name)`. An unnamed
      descriptor finds nothing. */
  function Stored(f: Descriptor, doc: Doc): Value {
    if f.name.Some? then Get(doc, f.name.value) else VNone
  }

  /** `Field.__get__`: the default when nothing (or None) is stored,
      otherwise the expanded stored value. */
  ghost function FieldGet(f: Descriptor, doc: Doc): (r: Result<Value>)
    ensures Stored(f, doc) == VNone ==> r == Ok(Make(f))
    ensures r.Err? ==> Stored(f, doc) != VNone
  {
    var v := Stored(f, doc);
    if v == VNone then Ok(Make(f)) else Expand(f, v)
  }

  /** The descriptor classes whose `__get__` is ListField's: ListField and
      its subclass SetField. */
  predicate IsContainer(k: Kind) {
    k.ListOf? || k.SetOf?
  }

  /** `ListField.__get__`: a fresh tracked list built from `value or []`.
      A set field therefore reads as a list of its elements. */
  ghost function ListGet(f: Descriptor, doc: Doc): (r: Result<seq<Value>>)
    ensures r.Ok? && FieldGet(f, doc).Ok? && FieldGet(f, doc).value.VList? ==> r.value == FieldGet(f, doc).value.items
    ensures r.Ok? && FieldGet(f, doc).Ok? && FieldGet(f, doc).value.VSet? ==>
      |r.value| == |FieldGet(f, doc).value.elems| && forall x :: x in r.value <==> x in FieldGet(f, doc).value.elems
    ensures FieldGet(f, doc).Err? ==> r == Err(FieldGet(f, doc).error)
  {
    var v :- FieldGet(f, doc);
    if !Truthy(v) then Ok([]) else Iterate(v)
  }

  /** What a field's descriptor gives when read from an instance. A fixed
      list field's `__get__` is ListField's taken from the class, which in
      Python 2 is an unbound method that accepts only ListField instances,
      so every read of such a field raises TypeError. */
  ghost function ReadField(f: Descriptor, doc: Doc): Result<Value> {
    if f.kind.FixedListOf? then Err(TypeError)
    else if IsContainer(f.kind) then
      var items :- ListGet(f, doc);
      Ok(VList(items))
    else FieldGet(f, doc)
  }

  /** What reading an attribute of an instance gives: the value of a field,
      or another member of the class (a method, a property or a class
      attribute such as `structure`), which the model names but does not
      evaluate. */
  datatype Attr = FieldValue(value: Value) | Member(name: string)

  /** What every instance inherits from `object` (Python 2.7), together with
      the `__dict__`, `__module__` and `__weakref__` every class statement
      without `__slots__` provides. */
  const ObjectAttributes: set<string> :=
    {"__class__", "__delattr__", "__doc__", "__format__", "__getattribute__", "__hash__",
     "__init__", "__new__", "__reduce__", "__reduce_ex__", "__repr__", "__setattr__",
     "__sizeof__", "__str__", "__subclasshook__", "__dict__", "__module__", "__weakref__"}

  /** The instance's own attributes: the private `__attributes`,
      `__identity`, `__ops` and `__dirty_fields` of Document.py, under their
      mangled names, which `load_dict` and `clear_ops` set on every
      instance. */
  const InstanceAttributes: set<string> :=
    {"_Document__attributes", "_Document__identity", "_Document__ops", "_Document__dirty_fields"}

  /** Whether an instance of `c` has attribute `name` other than a field:
      a member of its class, an attribute from `object`, or one of its own. */
  predicate HasMember(c: DocClass, name: string) {
    name in c.members || name in ObjectAttributes || name in InstanceAttributes
  }

  /** Reading attribute `name` of an instance. The metaclass installs the
      field descriptors in the class itself, so a field hides any member of
      the same name; a name that is neither raises AttributeError. */
  ghost function Attribute(c: DocClass, doc: Doc, name: string): (r: Result<Attr>)
    ensures name !in c.fieldTypes && !HasMember(c, name) ==> r == Err(AttributeError)
    ensures name !in c.fieldTypes && HasMember(c, name) ==> r == Ok(Member(name))
    ensures name in c.fieldTypes && c.fieldTypes[name].kind.FixedListOf? ==> r == Err(TypeError)
    ensures name in c.fieldTypes && IsContainer(c.fieldTypes[name].kind) ==>
      (r.Ok? <==> ListGet(c.fieldTypes[name], doc).Ok?)
      && (r.Ok? ==> r.value == FieldValue(VList(ListGet(c.fieldTypes[name], doc).value)))
    ensures name in c.fieldTypes && !IsContainer(c.fieldTypes[name].kind) && !c.fieldTypes[name].kind.FixedListOf? ==>
      (r.Ok? <==> FieldGet(c.fieldTypes[name], doc).Ok?)
      && (r.Ok? ==> r.value == FieldValue(FieldGet(c.fieldTypes[name], doc).value))
  {
    if name in c.fieldTypes then
      var v :- ReadField(c.fieldTypes[name], doc);
      Ok(FieldValue(v))
    else if HasMember(c, name) then Ok(Member(name))
    else Err(AttributeError)
  }

  /** Assigning attribute `name` (`__setattr__` then `Field.__set__`): the
      value is validated, collapsed and handed to `set`, so a collapsed None
      unsets the field. `__setattr__` first reads the attribute from the
      class: for a fixed list field that read raises TypeError, and a member
      that is not a field has no usable `__set__`, which raises
      AttributeError just as a missing name does. Nothing changes when a
      step raises. */
  ghost function Assign(c: DocClass, doc: Doc, name: string, value: Value): (r: Result<Doc>)
    requires NamedFields(c)
    ensures r.Ok? <==>
      name in c.fieldTypes && !c.fieldTypes[name].kind.FixedListOf?
      && Validate(c.fieldTypes[name], value).Pass? && Collapse(c.fieldTypes[name], value).Ok?
    ensures name !in c.fieldTypes ==> r == Err(AttributeError)
    ensures name in c.fieldTypes && c.fieldTypes[name].kind.FixedListOf? ==> r == Err(TypeError)
    ensures name in c.fieldTypes && !c.fieldTypes[name].kind.FixedListOf? && Validate(c.fieldTypes[name], value).Fail? ==>
      r == Err(Validate(c.fieldTypes[name], value).error)
    ensures r.Ok? ==>
      (Get(r.value, name) == Collapse(c.fieldTypes[name], value).value
       && forall k :: k != name ==> Get(r.value, k) == Get(doc, k))
    ensures r.Ok? && Collapse(c.fieldTypes[name], value).value != VNone ==> name in r.value.dirty
  {
    if name !in c.fieldTypes then Err(AttributeError)
    else if c.fieldTypes[name].kind.FixedListOf? then Err(TypeError)
    else
      var f := c.fieldTypes[name];
      match Validate(f, value)
      case Fail(e) => Err(e)
      case Pass =>
        var stored :- Collapse(f, value);
        Ok(Set(c, doc, f.name.value, stored))
  }

  /** Reading a field back after assigning it a well-formed value yields the
      value's canonical form (strings become blobs, ints longs, containers
      elementwise), unless the value collapsed to None: then the field was
      unset and reads as its default. */
  lemma ReadAfterAssign(c: DocClass, doc: Doc, name: string, x: Value)
    requires NamedFields(c) && WellFormed(x)
    requires Assign(c, doc, name, x).Ok?
    ensures var f := c.fieldTypes[name];
      FieldGet(f, Assign(c, doc, name, x).value)
        == if Collapse(f, x).value == VNone then Ok(Make(f)) else Ok(FieldLemmas.Canon(f, x))
  {
    var f := c.fieldTypes[name];
    FieldLemmas.ExpandAfterCollapse(f, x);
  }

  /** A value read back and stored again is stored exactly as before: the
      storage form is a fixed point of reading and writing. */
  lemma StoredFormStable(c: DocClass, doc: Doc, name: string, x: Value)
    requires NamedFields(c) && WellFormed(x) && name in c.fieldTypes
    requires FieldLemmas.SetFree(c.fieldTypes[name])
    requires Assign(c, doc, name, x).Ok?
    requires Collapse(c.fieldTypes[name], x).value != VNone
    ensures var d := Assign(c, doc, name, x).value;
      FieldGet(c.fieldTypes[name], d).Ok?
      && Assign(c, d, name, FieldGet(c.fieldTypes[name], d).value) == Ok(d)
  {
    var f := c.fieldTypes[name];
    var d := Assign(c, doc, name, x).value;
    FieldLemmas.ExpandAfterCollapse(f, x);
    FieldLemmas.CanonValid(f, x);
    FieldLemmas.StorageRoundTrip(f, x);
    FieldLemmas.CollapseOfCanon(f, x);
    var y := FieldLemmas.Canon(f, x);
    assert FieldGet(f, d) == Ok(y);
    assert Collapse(f, y) == Collapse(f, x);
    assert Set(c, d, name, Collapse(f, x).value) == d;
  }

  /** `self._id`, as `identity`, `save` and `delete` read it: the value of
      the `_id` field. */
  ghost function IdOf(c: DocClass, doc: Doc): (r: Result<Value>)
    ensures "_id" in c.fieldTypes ==>
      (r.Ok? <==> Attribute(c, doc, "_id").Ok?)
      && (r.Ok? ==> Attribute(c, doc, "_id") == Ok(FieldValue(r.value)))
      && (r.Err? ==> Attribute(c, doc, "_id") == Err(r.error))
    ensures "_id" !in c.fieldTypes && !HasMember(c, "_id") ==> r == Err(AttributeError)
  {
    if "_id" in c.fieldTypes then ReadField(c.fieldTypes["_id"], doc) else Err(AttributeError)
  }

  /** `identity()`: the query `{'_id': self._id or ObjectId()}`, with
      `newId` standing for the new ObjectId. */
  ghost function Identity(c: DocClass, doc: Doc, newId: nat): (r: Result<Value>)
    ensures r.Ok? <==> IdOf(c, doc).Ok?
    ensures r.Err? ==> r.error == IdOf(c, doc).error
    ensures r.Ok? ==> r.value.VDict? && r.value.entries.Keys == {"_id"} && Truthy(r.value.entries["_id"])
    ensures r.Ok? && Truthy(IdOf(c, doc).value) ==> r.value.entries["_id"] == IdOf(c, doc).value
    ensures r.Ok? && !Truthy(IdOf(c, doc).value) ==> r.value.entries["_id"] == VObjectId(newId)
  {
    var id :- IdOf(c, doc);
    Ok(VDict(map["_id" := if Truthy(id) then id else VObjectId(newId)]))
  }
}
