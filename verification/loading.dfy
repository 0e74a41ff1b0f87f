/** Loading a stored document into an instance (Document.merge_dict and
    Document.load_dict). */
module Loading {
  import opened Errors
  import opened Values
  import opened FieldTypes
  import opened KeyMapping
  import opened DocumentMeta
  import opened Documents
  import opened Access

  /** The loop of `merge_dict` over the declared fields `ks`, in order: a
      field whose short name the stored dict has takes that value as it is
      (no expansion, not dirty); otherwise a field with a declared default
      is `set` to a fresh default. */
  function MergeFields(c: DocClass, ks: seq<string>, doc: Doc, dct: map<string, Value>): Doc
    requires forall i :: 0 <= i < |ks| ==> ks[i] in c.fieldTypes
  {
    if ks == [] then doc
    else MergeField(c, MergeFields(c, ks[..|ks| - 1], doc, dct), ks[|ks| - 1], dct)
  }

  /** One pass of that loop, for the declared field `key`. */
  function MergeField(c: DocClass, d: Doc, key: string, dct: map<string, Value>): Doc
    requires key in c.fieldTypes
  {
    var short := LongToShort(c.fieldMap, key);
    if short in dct then d.(attributes := d.attributes[key := dct[short]])
    else if key in c.defaultValues then Set(c, d, key, Make(c.fieldTypes[key]))
    else d
  }

  /** What loading does to one attribute `k`, given whether it is among
      the visited fields. */
  ghost function Loaded(c: DocClass, visited: bool, k: string, before: Value, dct: map<string, Value>): Value
    requires visited ==> k in c.fieldTypes
  {
    if !visited then before
    else if LongToShort(c.fieldMap, k) in dct then dct[LongToShort(c.fieldMap, k)]
    else if k in c.defaultValues then Make(c.fieldTypes[k])
    else before
  }

  /** Whether loading sets `k` from a default that is not None, which marks
      it dirty. */
  ghost predicate DefaultFilled(c: DocClass, k: string, dct: map<string, Value>)
    requires k in c.fieldTypes
  {
    LongToShort(c.fieldMap, k) !in dct && k in c.defaultValues && Make(c.fieldTypes[k]) != VNone
  }

  /** One pass changes only the attribute `key`, which ends as the stored
      value or the default; it marks `key` dirty exactly when it fills a
      default that is not None, and queues nothing but `$unset`. */
  lemma MergeFieldAt(c: DocClass, d: Doc, key: string, dct: map<string, Value>, k: string)
    requires key in c.fieldTypes
    ensures Get(MergeField(c, d, key, dct), k) == if k == key then Loaded(c, true, key, Get(d, key), dct) else Get(d, k)
    ensures k in MergeField(c, d, key, dct).dirty <==> k in d.dirty || (k == key && DefaultFilled(c, key, dct))
    ensures MergeField(c, d, key, dct).identity == d.identity
    ensures forall o :: o in d.ops && o != "$unset" ==> o in MergeField(c, d, key, dct).ops && MergeField(c, d, key, dct).ops[o] == d.ops[o]
    ensures MergeField(c, d, key, dct).ops.Keys <= d.ops.Keys + {"$unset"}
  {
    var short := LongToShort(c.fieldMap, key);
    if short !in dct && key in c.defaultValues && Make(c.fieldTypes[key]) == VNone {
      assert MergeField(c, d, key, dct) == Unset(c, d, key);
    }
  }

  /** Each visited field ends as the stored value under its short name, or
      else its default, or else as it was; unvisited attributes keep their
      value. Only default-filled fields become dirty, and only `$unset`
      operations (for defaults that are None) are queued. */
  lemma {:induction false} MergeFieldsAt(c: DocClass, ks: seq<string>, doc: Doc, dct: map<string, Value>, k: string)
    requires forall i :: 0 <= i < |ks| ==> ks[i] in c.fieldTypes
    requires forall i, j :: 0 <= i < j < |ks| ==> ks[i] != ks[j]
    ensures Get(MergeFields(c, ks, doc, dct), k) == Loaded(c, k in ks, k, Get(doc, k), dct)
    ensures k in MergeFields(c, ks, doc, dct).dirty <==> k in doc.dirty || (k in ks && DefaultFilled(c, k, dct))
    ensures MergeFields(c, ks, doc, dct).identity == doc.identity
    ensures forall o :: o in doc.ops && o != "$unset" ==> o in MergeFields(c, ks, doc, dct).ops && MergeFields(c, ks, doc, dct).ops[o] == doc.ops[o]
    ensures MergeFields(c, ks, doc, dct).ops.Keys <= doc.ops.Keys + {"$unset"}
  {
    if ks != [] {
      var n := |ks| - 1;
      var init := ks[..n];
      assert forall x :: x in ks <==> x in init || x == ks[n];
      assert ks[n] !in init;
      MergeFieldsAt(c, init, doc, dct, k);
      MergeFieldsAt(c, init, doc, dct, ks[n]);
      MergeFieldAt(c, MergeFields(c, init, doc, dct), ks[n], dct, k);
    }
  }

  /** `merge_dict(dct)`: every declared field, in iteration order. */
  ghost function MergeDict(c: DocClass, doc: Doc, dct: map<string, Value>): Doc {
    MergeFields(c, Enumerate(c.fieldTypes.Keys), doc, dct)
  }

  /** `load_dict(dct)`: pending state cleared, attributes emptied, the
      stored dict merged in, then the identity query captured; `newId` is
      the ObjectId a document without `_id` is given. When `identity()`
      raises, the loaded state stays and the old identity is kept. */
  ghost function LoadDict(c: DocClass, doc: Doc, dct: map<string, Value>, newId: nat): (r: Step)
    ensures var d := MergeDict(c, Doc(map[], {}, map[], doc.identity), dct);
      r.doc.attributes == d.attributes && r.doc.dirty == d.dirty && r.doc.ops == d.ops
      && (r.status.Pass? <==> Identity(c, d, newId).Ok?)
      && (r.status.Pass? ==> r.doc.identity == Identity(c, d, newId).value)
      && (r.status.Fail? ==> r.doc.identity == d.identity && r.status.error == Identity(c, d, newId).error)
  {
    var start := ClearOps(doc).(attributes := map[]);
    assert start == Doc(map[], {}, map[], doc.identity);
    var d := MergeDict(c, start, dct);
    match Identity(c, d, newId)
    case Err(e) => Step(d, Fail(e))
    case Ok(q) => Step(d.(identity := q), Pass)
  }

  /** After loading, a declared field holds the stored value under its
      short name, or else its declared default (then it is dirty, unless
      that default is None); nothing else has an attribute. Loading leaves
      no pending operation but `$unset`s of None defaults. */
  lemma LoadDictCharacterised(c: DocClass, doc: Doc, dct: map<string, Value>, newId: nat)
    ensures var r := LoadDict(c, doc, dct, newId).doc;
      (forall k :: k in c.fieldTypes ==>
         Get(r, k) == Loaded(c, true, k, VNone, dct)
         && (k in r.dirty <==> DefaultFilled(c, k, dct)))
      && (forall k :: k !in c.fieldTypes ==> k !in r.attributes && k !in r.dirty)
      && r.ops.Keys <= {"$unset"}
  {
    var r := LoadDict(c, doc, dct, newId).doc;
    forall k | k in c.fieldTypes
      ensures Get(r, k) == Loaded(c, true, k, VNone, dct) && (k in r.dirty <==> DefaultFilled(c, k, dct))
    {
      LoadDictAt(c, doc, dct, newId, k);
    }
    forall k | k !in c.fieldTypes ensures k !in r.attributes && k !in r.dirty {
      LoadDictAt(c, doc, dct, newId, k);
    }
    LoadDictAt(c, doc, dct, newId, "");
  }

  /** The same for one key `k`. */
  lemma LoadDictAt(c: DocClass, doc: Doc, dct: map<string, Value>, newId: nat, k: string)
    ensures var r := LoadDict(c, doc, dct, newId).doc;
      (k in c.fieldTypes ==>
         Get(r, k) == Loaded(c, true, k, VNone, dct)
         && (k in r.dirty <==> DefaultFilled(c, k, dct)))
      && (k !in c.fieldTypes ==> k !in r.attributes && k !in r.dirty)
      && r.ops.Keys <= {"$unset"}
  {
    var start := Doc(map[], {}, map[], doc.identity);
    var ks := Enumerate(c.fieldTypes.Keys);
    assert k in ks <==> k in c.fieldTypes;
    MergeFieldsAt(c, ks, start, dct, k);
    if k !in c.fieldTypes {
      LoadedKeys(c, ks, start, dct, k);
    }
  }

  /** The merge adds attributes only for visited fields. */
  lemma {:induction false} LoadedKeys(c: DocClass, ks: seq<string>, doc: Doc, dct: map<string, Value>, k: string)
    requires forall i :: 0 <= i < |ks| ==> ks[i] in c.fieldTypes
    requires k !in ks && k !in doc.attributes
    ensures k !in MergeFields(c, ks, doc, dct).attributes
  {
    if ks != [] {
      LoadedKeys(c, ks[..|ks| - 1], doc, dct, k);
    }
  }
}
