/** What the Document metaclass computes when a class is defined
    (DocumentMeta in mongotron/Document.py): the inherited dicts merged with
    the bases', the inherited sets united, the inverse field map, and the
    descriptors parsed from `structure`. */
module DocumentMeta {
  import opened Errors
  import opened Values
  import opened FieldTypes
  import opened KeyMapping
  import FieldLemmas

  /** The attributes a class body declares for the metaclass (absent ones
      are empty), and the names of everything else it defines: methods,
      properties and other class attributes. */
  datatype ClassBody = ClassBody(
    structure: map<string, Token>,
    defaultValues: map<string, Default>,
    fieldMap: FieldMap,
    required: set<string>,
    writeOnce: set<string>,
    members: set<string>)

  /** A defined Document class: its merged attributes, the descriptors of
      its fields, and the names of its other members, its own and
      inherited. */
  datatype DocClass = DocClass(
    structure: map<string, Token>,
    defaultValues: map<string, Default>,
    fieldMap: FieldMap,
    inverseFieldMap: map<string, string>,
    required: set<string>,
    writeOnce: set<string>,
    fieldTypes: map<string, Descriptor>,
    members: set<string>)

  /** The loop of `merge_carefully` over the base's keys `ks`, in order: a
      key the child already has raises TypeError unless it is `_id`, which
      the base's value overwrites. */
  function MergeKeys<V>(base: map<string, V>, ks: seq<string>, child: map<string, V>): Result<map<string, V>>
    requires forall i :: 0 <= i < |ks| ==> ks[i] in base
  {
    if ks == [] then Ok(child)
    else
      var n := |ks| - 1;
      var dct :- MergeKeys(base, ks[..n], child);
      if ks[n] in dct && ks[n] != "_id" then Err(TypeError) else Ok(dct[ks[n] := base[ks[n]]])
  }

  /** `merge_carefully(base, dname, attrs)` for one inherited dict. */
  ghost function MergeCarefully<V>(base: map<string, V>, child: map<string, V>): Result<map<string, V>> {
    var ks := Enumerate(base.Keys);
    MergeKeys(base, ks, child)
  }

  /** The keys of `base` and `child` that clash. */
  function Clashes<V>(base: map<string, V>, child: map<string, V>): set<string> {
    (base.Keys * child.Keys) - {"_id"}
  }

  /** The loop over distinct base keys succeeds exactly when none of them
      other than `_id` is already in the child; the merged dict then holds
      the base's value for every visited key and the child's for the rest. */
  lemma {:induction false} MergeKeysCharacterised<V>(base: map<string, V>, ks: seq<string>, child: map<string, V>)
    requires forall i :: 0 <= i < |ks| ==> ks[i] in base
    requires forall i, j :: 0 <= i < j < |ks| ==> ks[i] != ks[j]
    ensures MergeKeys(base, ks, child).Ok? <==> forall k :: k in ks && k != "_id" ==> k !in child
    ensures MergeKeys(base, ks, child).Err? ==> MergeKeys(base, ks, child).error == TypeError
    ensures MergeKeys(base, ks, child).Ok? ==>
      forall k :: k in MergeKeys(base, ks, child).value <==> k in child || k in ks
    ensures MergeKeys(base, ks, child).Ok? ==>
      forall k :: k in MergeKeys(base, ks, child).value ==>
        MergeKeys(base, ks, child).value[k] == if k in ks then base[k] else child[k]
  {
    if ks != [] {
      var n := |ks| - 1;
      var init := ks[..n];
      assert forall k :: k in ks <==> k in init || k == ks[n];
      assert ks[n] !in init;
      MergeKeysCharacterised(base, init, child);
    }
  }

  /** `merge_carefully` raises TypeError exactly when the base and the child
      share a key other than `_id`; otherwise the child gains every base
      entry, and on `_id` the base's value wins. */
  lemma MergeCarefullyCharacterised<V>(base: map<string, V>, child: map<string, V>)
    ensures MergeCarefully(base, child) ==
      if Clashes(base, child) != {} then Err(TypeError) else Ok(child + base)
  {
    if Clashes(base, child) != {} {
      MergeClash(base, child);
    } else {
      MergeNoClash(base, child);
    }
  }

  lemma MergeClash<V>(base: map<string, V>, child: map<string, V>)
    requires Clashes(base, child) != {}
    ensures MergeCarefully(base, child) == Err(TypeError)
  {
    var ks := Enumerate(base.Keys);
    MergeKeysCharacterised(base, ks, child);
    var k :| k in Clashes(base, child);
    assert k in ks && k != "_id" && k in child;
  }

  lemma MergeNoClash<V>(base: map<string, V>, child: map<string, V>)
    requires Clashes(base, child) == {}
    ensures MergeCarefully(base, child) == Ok(child + base)
  {
    var ks := Enumerate(base.Keys);
    forall k | k in ks && k != "_id" ensures k !in child {
      assert k in base;
      assert k !in Clashes(base, child);
    }
    MergeKeysCharacterised(base, ks, child);
    OverlayIsUnion(MergeKeys(base, ks, child).value, base, ks, child);
  }

  /** A map holding the child's entries overlaid with every entry of the
      base is `child + base`. */
  lemma OverlayIsUnion<V>(m: map<string, V>, base: map<string, V>, ks: seq<string>, child: map<string, V>)
    requires forall k :: k in ks <==> k in base
    requires forall k :: k in m <==> k in child || k in ks
    requires forall k :: k in m ==> m[k] == if k in ks then base[k] else child[k]
    ensures m == child + base
  {
    assert m.Keys == (child + base).Keys;
  }

  /** The merges of one inherited dict with every base, in the order of the
      bases. */
  ghost function MergeBases<V>(own: map<string, V>, bases: seq<map<string, V>>): Result<map<string, V>> {
    if bases == [] then Ok(own)
    else
      var n := |bases| - 1;
      var dct :- MergeBases(own, bases[..n]);
      MergeCarefully(bases[n], dct)
  }

  /** No key other than `_id` is declared by two of: the class, and each of
      its bases. */
  ghost predicate Disjoint<V>(own: map<string, V>, bases: seq<map<string, V>>) {
    forall i, k :: 0 <= i < |bases| && k in bases[i] && k != "_id" ==>
      k !in own && forall j :: 0 <= j < i ==> k !in bases[j]
  }

  /** The reference result of the merges: the class's own entries overlaid
      with each base's in turn. */
  function Overlay<V>(own: map<string, V>, bases: seq<map<string, V>>): map<string, V> {
    if bases == [] then own else Overlay(own, bases[..|bases| - 1]) + bases[|bases| - 1]
  }

  /** The overlay holds exactly the keys of the class and of its bases. */
  lemma {:induction false} OverlayKeys<V>(own: map<string, V>, bases: seq<map<string, V>>)
    ensures forall k :: k in Overlay(own, bases) <==> k in own || exists i :: 0 <= i < |bases| && k in bases[i]
  {
    if bases != [] {
      var n := |bases| - 1;
      var init := bases[..n];
      OverlayKeys(own, init);
      forall k | k in own || exists i :: 0 <= i < |bases| && k in bases[i]
        ensures k in Overlay(own, bases)
      {
        if k !in own && k !in bases[n] {
          var i :| 0 <= i < |bases| && k in bases[i];
          assert k in init[i];
        }
      }
      forall k | k in Overlay(own, init) && k !in own
        ensures exists i :: 0 <= i < |bases| && k in bases[i]
      {
        var i :| 0 <= i < n && k in init[i];
        assert k in bases[i];
      }
    }
  }

  /** With disjoint declarations, a key other than `_id` keeps the value the
      class or the one base declaring it gives. */
  lemma {:induction false} OverlayAt<V>(own: map<string, V>, bases: seq<map<string, V>>, k: string)
    requires Disjoint(own, bases) && k != "_id"
    ensures k in own ==> k in Overlay(own, bases) && Overlay(own, bases)[k] == own[k]
    ensures forall i :: 0 <= i < |bases| && k in bases[i] ==>
      k in Overlay(own, bases) && Overlay(own, bases)[k] == bases[i][k]
  {
    OverlayKeys(own, bases);
    if bases != [] {
      var n := |bases| - 1;
      var init := bases[..n];
      assert forall i :: 0 <= i < n ==> init[i] == bases[i];
      assert Disjoint(own, init);
      OverlayAt(own, init, k);
      if k in bases[n] {
        assert k !in own && forall j :: 0 <= j < n ==> k !in bases[j];
      }
    }
  }

  lemma OverlayValues<V>(own: map<string, V>, bases: seq<map<string, V>>)
    requires Disjoint(own, bases)
    ensures forall k :: k in own && k != "_id" ==> k in Overlay(own, bases) && Overlay(own, bases)[k] == own[k]
    ensures forall i, k :: 0 <= i < |bases| && k in bases[i] && k != "_id" ==>
      k in Overlay(own, bases) && Overlay(own, bases)[k] == bases[i][k]
  {
    forall k | k != "_id"
      ensures k in own ==> k in Overlay(own, bases) && Overlay(own, bases)[k] == own[k]
      ensures forall i :: 0 <= i < |bases| && k in bases[i] ==>
        k in Overlay(own, bases) && Overlay(own, bases)[k] == bases[i][k]
    {
      OverlayAt(own, bases, k);
    }
  }

  /** The declarations are disjoint exactly when those before the last base
      are and the last base clashes with none of them. */
  lemma DisjointStep<V>(own: map<string, V>, bases: seq<map<string, V>>)
    requires bases != []
    ensures Disjoint(own, bases) <==>
      Disjoint(own, bases[..|bases| - 1]) && Clashes(bases[|bases| - 1], Overlay(own, bases[..|bases| - 1])) == {}
  {
    if Disjoint(own, bases) {
      DisjointInit(own, bases);
    }
    if Disjoint(own, bases[..|bases| - 1]) && Clashes(bases[|bases| - 1], Overlay(own, bases[..|bases| - 1])) == {} {
      DisjointExtend(own, bases);
    }
  }

  /** Disjoint declarations stay disjoint without the last base, which
      clashes with none of the others. */
  lemma DisjointInit<V>(own: map<string, V>, bases: seq<map<string, V>>)
    requires bases != [] && Disjoint(own, bases)
    ensures Disjoint(own, bases[..|bases| - 1])
    ensures Clashes(bases[|bases| - 1], Overlay(own, bases[..|bases| - 1])) == {}
  {
    var n := |bases| - 1;
    var init := bases[..n];
    forall i, k | 0 <= i < |init| && k in init[i] && k != "_id"
      ensures k !in own && forall j :: 0 <= j < i ==> k !in init[j]
    {
      assert init[i] == bases[i];
      assert k !in own && forall j :: 0 <= j < i ==> k !in bases[j];
      forall j | 0 <= j < i ensures k !in init[j] {
        assert init[j] == bases[j];
      }
    }
    OverlayKeys(own, init);
    forall k | k in bases[n] && k != "_id" ensures k !in Overlay(own, init) {
      assert k !in own && forall j :: 0 <= j < n ==> k !in bases[j];
      forall i | 0 <= i < n ensures k !in init[i] {
        assert init[i] == bases[i];
      }
    }
    assert Clashes(bases[n], Overlay(own, init)) == {};
  }

  /** A last base that clashes with none of the earlier, disjoint
      declarations keeps them disjoint. */
  lemma DisjointExtend<V>(own: map<string, V>, bases: seq<map<string, V>>)
    requires bases != [] && Disjoint(own, bases[..|bases| - 1])
    requires Clashes(bases[|bases| - 1], Overlay(own, bases[..|bases| - 1])) == {}
    ensures Disjoint(own, bases)
  {
    var n := |bases| - 1;
    var init := bases[..n];
    forall i, k | 0 <= i < |bases| && k in bases[i] && k != "_id"
      ensures k !in own && forall j :: 0 <= j < i ==> k !in bases[j]
    {
      if i < n {
        assert bases[i] == init[i];
        assert k !in own && forall j :: 0 <= j < i ==> k !in init[j];
        forall j | 0 <= j < i ensures k !in bases[j] {
          assert bases[j] == init[j];
        }
      } else {
        assert k !in Clashes(bases[n], Overlay(own, init));
        NotInOverlay(own, init, k);
        forall j | 0 <= j < i ensures k !in bases[j] {
          assert bases[j] == init[j];
        }
      }
    }
  }

  /** A key missing from the overlay is missing from the class and from
      every base. */
  lemma NotInOverlay<V>(own: map<string, V>, bases: seq<map<string, V>>, k: string)
    requires k !in Overlay(own, bases)
    ensures k !in own && forall j :: 0 <= j < |bases| ==> k !in bases[j]
  {
    OverlayKeys(own, bases);
  }

  /** Merging with several bases raises TypeError unless the class and its
      bases declare disjoint keys (apart from `_id`), and otherwise gives
      the overlay. */
  lemma {:induction false} MergeBasesCharacterised<V>(own: map<string, V>, bases: seq<map<string, V>>)
    ensures MergeBases(own, bases) == if Disjoint(own, bases) then Ok(Overlay(own, bases)) else Err(TypeError)
  {
    if bases != [] {
      var n := |bases| - 1;
      var init := bases[..n];
      MergeBasesCharacterised(own, init);
      DisjointStep(own, bases);
      if Disjoint(own, init) {
        MergeCarefullyCharacterised(bases[n], Overlay(own, init));
      }
    }
  }

  /** What a successful merge holds: every entry of the class and of its
      bases, each key with the value of the one that declares it (the last
      base's for `_id`). */
  lemma MergeBasesContents<V>(own: map<string, V>, bases: seq<map<string, V>>)
    requires MergeBases(own, bases).Ok?
    ensures forall k :: k in MergeBases(own, bases).value <==> k in own || exists i :: 0 <= i < |bases| && k in bases[i]
    ensures forall k :: k in own && k != "_id" ==> MergeBases(own, bases).value[k] == own[k]
    ensures forall i, k :: 0 <= i < |bases| && k in bases[i] && k != "_id" ==> MergeBases(own, bases).value[k] == bases[i][k]
  {
    MergeBasesCharacterised(own, bases);
    OverlayKeys(own, bases);
    OverlayValues(own, bases);
  }

  /** The union of the class's own set with the sets of each base, as the
      metaclass builds `required` and `write_once`. */
  function UniteSets(own: set<string>, bases: seq<set<string>>): (r: set<string>)
    ensures forall k :: k in r <==> k in own || exists i :: 0 <= i < |bases| && k in bases[i]
  {
    if bases == [] then own
    else
      var n := |bases| - 1;
      assert forall i :: 0 <= i < n ==> bases[..n][i] == bases[i];
      UniteSets(own, bases[..n]) + bases[n]
  }

  /** The `default` keyword `make_field_types` passes for a field: the
      declared default, or none at all when the class declares none. */
  function DefaultArgFor(defaults: map<string, Default>, name: string): DefaultArg {
    if name in defaults then Given(defaults[name]) else Undefined
  }

  /** The keyword arguments `make_field_types` passes to `parse` for a
      field. */
  function OptionsFor(required: set<string>, defaults: map<string, Default>, name: string): FieldOptions {
    FieldOptions(Some(name), name in required, DefaultArgFor(defaults, name), {})
  }

  /** The loop of `make_field_types` over the names `ns`, in order: each
      token parsed with the keyword arguments `opts` gives for its name. */
  ghost function ParseStructure(structure: map<string, Token>, ns: seq<string>, opts: string -> FieldOptions): Result<map<string, Descriptor>>
    requires forall i :: 0 <= i < |ns| ==> ns[i] in structure
  {
    if ns == [] then Ok(map[])
    else
      var n := |ns| - 1;
      var types :- ParseStructure(structure, ns[..n], opts);
      var d :- Parse(structure[ns[n]], opts(ns[n]));
      Ok(types[ns[n] := d])
  }

  /** The loop succeeds exactly when every visited token parses; it then maps
      every visited name to its token's descriptor, and otherwise raises the
      exception of some visited token. */
  lemma {:induction false} ParseStructureCharacterised(structure: map<string, Token>, ns: seq<string>, opts: string -> FieldOptions)
    requires forall i :: 0 <= i < |ns| ==> ns[i] in structure
    ensures ParseStructure(structure, ns, opts).Ok? <==> forall k :: k in ns ==> Parse(structure[k], opts(k)).Ok?
    ensures ParseStructure(structure, ns, opts).Ok? ==>
      forall k :: k in ParseStructure(structure, ns, opts).value <==> k in ns
    ensures ParseStructure(structure, ns, opts).Ok? ==>
      forall k :: k in ParseStructure(structure, ns, opts).value ==>
        Parse(structure[k], opts(k)) == Ok(ParseStructure(structure, ns, opts).value[k])
    ensures ParseStructure(structure, ns, opts).Err? ==>
      exists k :: k in ns && Parse(structure[k], opts(k)) == Err(ParseStructure(structure, ns, opts).error)
  {
    if ns != [] {
      var n := |ns| - 1;
      var init := ns[..n];
      assert forall k :: k in ns <==> k in init || k == ns[n];
      ParseStructureCharacterised(structure, init, opts);
    }
  }

  /** `make_field_types`: every structure entry parsed into a descriptor
      named after it, or the first exception in iteration order. */
  ghost function MakeFieldTypes(structure: map<string, Token>, required: set<string>, defaults: map<string, Default>): Result<map<string, Descriptor>> {
    ParseStructure(structure, Enumerate(structure.Keys), n => OptionsFor(required, defaults, n))
  }

  /** Every declared field gets the descriptor its token parses to, named
      after the field, required exactly when listed in `required`; the
      class is defined exactly when every token parses. */
  lemma MakeFieldTypesCharacterised(structure: map<string, Token>, required: set<string>, defaults: map<string, Default>)
    ensures MakeFieldTypes(structure, required, defaults).Ok? <==>
      forall n :: n in structure ==> Parse(structure[n], OptionsFor(required, defaults, n)).Ok?
    ensures MakeFieldTypes(structure, required, defaults).Ok? ==>
      var ft := MakeFieldTypes(structure, required, defaults).value;
      ft.Keys == structure.Keys
      && forall n :: n in ft ==>
           Parse(structure[n], OptionsFor(required, defaults, n)) == Ok(ft[n])
           && ft[n].name == Some(n) && ft[n].required == (n in required)
    ensures MakeFieldTypes(structure, required, defaults).Err? ==>
      exists n :: n in structure
        && Parse(structure[n], OptionsFor(required, defaults, n)) == Err(MakeFieldTypes(structure, required, defaults).error)
  {
    var opts := n => OptionsFor(required, defaults, n);
    var ns := Enumerate(structure.Keys);
    ParseStructureCharacterised(structure, ns, opts);
    var r := ParseStructure(structure, ns, opts);
    if r.Ok? {
      forall n | n in r.value ensures r.value[n].name == Some(n) && r.value[n].required == (n in required) {
        ParseConstructs(structure[n], OptionsFor(required, defaults, n));
      }
      assert r.value.Keys == structure.Keys;
    }
  }

  /** A descriptor obtained from `parse` carries the name and the `required`
      flag it was given. */
  lemma ParseConstructs(t: Token, opts: FieldOptions)
    ensures Parse(t, opts).Ok? ==> Parse(t, opts).value.name == opts.name && Parse(t, opts).value.required == opts.required
    ensures opts.unexpected != {} ==> Parse(t, opts).Err?
  {
    FieldLemmas.ParseDenotation(t, opts);
  }

  /** The bases' structures, default values, field maps, required and
      write-once names, in base order. */
  function Structures(bases: seq<DocClass>): seq<map<string, Token>> {
    seq(|bases|, i requires 0 <= i < |bases| => bases[i].structure)
  }

  function DefaultValuesOf(bases: seq<DocClass>): seq<map<string, Default>> {
    seq(|bases|, i requires 0 <= i < |bases| => bases[i].defaultValues)
  }

  function FieldMaps(bases: seq<DocClass>): seq<FieldMap> {
    seq(|bases|, i requires 0 <= i < |bases| => bases[i].fieldMap)
  }

  function RequiredOf(bases: seq<DocClass>): seq<set<string>> {
    seq(|bases|, i requires 0 <= i < |bases| => bases[i].required)
  }

  function WriteOnceOf(bases: seq<DocClass>): seq<set<string>> {
    seq(|bases|, i requires 0 <= i < |bases| => bases[i].writeOnce)
  }

  function MembersOf(bases: seq<DocClass>): seq<set<string>> {
    seq(|bases|, i requires 0 <= i < |bases| => bases[i].members)
  }

  /** The class attributes the metaclass sets on every class it builds. */
  const MetaclassAttributes: set<string> :=
    {"structure", "default_values", "field_map", "required", "write_once",
     "inverse_field_map", "field_types", "__collection__", "__manager__", "__connection__"}

  /** The corrected class statement. It differs from the metaclass as
      written in two places: each field is parsed with the keyword arguments
      `name`, `required` and, only when the class declares one, `default`
      (see `OptionsFor`), and the inverse field map is the inverse of the
      field map. Otherwise it does what the metaclass does: each inherited
      dict merged with the bases' (in base order), the inherited sets
      united, and the field descriptors parsed. */
  ghost function DefineClass(body: ClassBody, bases: seq<DocClass>): Result<DocClass> {
    var structure :- MergeBases(body.structure, Structures(bases));
    var defaults :- MergeBases(body.defaultValues, DefaultValuesOf(bases));
    var fieldMap :- MergeBases(body.fieldMap, FieldMaps(bases));
    var required := UniteSets(body.required, RequiredOf(bases));
    var writeOnce := UniteSets(body.writeOnce, WriteOnceOf(bases));
    var fieldTypes :- MakeFieldTypes(structure, required, defaults);
    var members := UniteSets(body.members, MembersOf(bases)) + MetaclassAttributes;
    Ok(DocClass(structure, defaults, fieldMap, Invert(fieldMap), required, writeOnce, fieldTypes, members))
  }

  /** The corrected class statement succeeds exactly when the class and its
      bases declare disjoint structures, default values and field maps
      (apart from `_id`) and every merged field parses; the class then holds
      the overlays of its bases' dicts, the unions of their sets, the
      inverse of the merged field map, the parsed descriptors, and the
      members of the class and its bases along with the metaclass's own
      attributes. */
  lemma DefineClassCharacterised(body: ClassBody, bases: seq<DocClass>)
    ensures DefineClass(body, bases).Ok? <==>
      Disjoint(body.structure, Structures(bases))
      && Disjoint(body.defaultValues, DefaultValuesOf(bases))
      && Disjoint(body.fieldMap, FieldMaps(bases))
      && MakeFieldTypes(Overlay(body.structure, Structures(bases)),
                        UniteSets(body.required, RequiredOf(bases)),
                        Overlay(body.defaultValues, DefaultValuesOf(bases))).Ok?
    ensures DefineClass(body, bases).Ok? ==>
      var c := DefineClass(body, bases).value;
      c.structure == Overlay(body.structure, Structures(bases))
      && c.defaultValues == Overlay(body.defaultValues, DefaultValuesOf(bases))
      && c.fieldMap == Overlay(body.fieldMap, FieldMaps(bases))
      && c.inverseFieldMap == Invert(c.fieldMap)
      && c.required == UniteSets(body.required, RequiredOf(bases))
      && c.writeOnce == UniteSets(body.writeOnce, WriteOnceOf(bases))
      && Ok(c.fieldTypes) == MakeFieldTypes(c.structure, c.required, c.defaultValues)
      && c.members == UniteSets(body.members, MembersOf(bases)) + MetaclassAttributes
    ensures DefineClass(body, bases).Err? ==>
      (DefineClass(body, bases).error == TypeError
       || Err(DefineClass(body, bases).error) == MakeFieldTypes(Overlay(body.structure, Structures(bases)),
                        UniteSets(body.required, RequiredOf(bases)),
                        Overlay(body.defaultValues, DefaultValuesOf(bases))))
  {
    MergeBasesCharacterised(body.structure, Structures(bases));
    MergeBasesCharacterised(body.defaultValues, DefaultValuesOf(bases));
    MergeBasesCharacterised(body.fieldMap, FieldMaps(bases));
  }

  /** A class defined by the corrected class statement declares a
      descriptor for exactly its merged structure, each named after its key
      and required exactly when the class or one of its bases lists it as
      required. */
  lemma DefineClassFields(body: ClassBody, bases: seq<DocClass>)
    requires DefineClass(body, bases).Ok?
    ensures var c := DefineClass(body, bases).value;
      c.fieldTypes.Keys == c.structure.Keys
      && forall n :: n in c.fieldTypes ==>
           c.fieldTypes[n].name == Some(n)
           && (c.fieldTypes[n].required <==> n in body.required || exists i :: 0 <= i < |bases| && n in bases[i].required)
  {
    DefineClassCharacterised(body, bases);
    var c := DefineClass(body, bases).value;
    MakeFieldTypesCharacterised(c.structure, c.required, c.defaultValues);
    forall n | n in c.fieldTypes
      ensures n in c.required <==> n in body.required || exists i :: 0 <= i < |bases| && n in bases[i].required
    {
      if n !in body.required && n in c.required {
        var i :| 0 <= i < |bases| && n in RequiredOf(bases)[i];
        assert n in bases[i].required;
      }
      if exists i :: 0 <= i < |bases| && n in bases[i].required {
        var i :| 0 <= i < |bases| && n in bases[i].required;
        assert n in RequiredOf(bases)[i];
      }
    }
  }

  /** Every field a base declares is a field of the derived class, under
      the same name. */
  lemma InheritsFields(body: ClassBody, bases: seq<DocClass>)
    requires DefineClass(body, bases).Ok?
    ensures var c := DefineClass(body, bases).value;
      forall i, k :: 0 <= i < |bases| && k in bases[i].structure ==>
        k in c.fieldTypes && c.fieldTypes[k].name == Some(k)
  {
    DefineClassCharacterised(body, bases);
    DefineClassFields(body, bases);
    OverlayKeys(body.structure, Structures(bases));
    var c := DefineClass(body, bases).value;
    forall i, k | 0 <= i < |bases| && k in bases[i].structure
      ensures k in c.fieldTypes
    {
      assert k in Structures(bases)[i];
    }
  }

  // ----- the root Document class -----

  /** The names the root `Document` class body defines besides the
      attributes the metaclass reads: its hooks, methods, properties and
      class methods. */
  const DocumentMembers: set<string> :=
    {"__metaclass__", "_Document__should_explain", "validate", "on_load", "pre_save",
     "post_save", "pre_insert", "post_insert", "pre_update", "post_update", "_dbcollection",
     "long_to_short", "short_to_long", "merge_dict", "load_dict", "to_json_dict",
     "from_json_dict", "__init__", "__setattr__", "__repr__", "__contains__", "__eq__",
     "__hash__", "embedded", "get", "add_operation", "operations", "clear_ops", "mark_dirty",
     "set", "unset", "__delattr__", "inc", "dec", "addToSet", "pull", "push", "identity",
     "save", "delete", "map_search_list", "map_search_dict", "find", "find_one", "update",
     "get_by_id", "document_as_dict"}

  /** The root class body, corrected: `_id` declared with the ObjectId
      class as its token, so that it parses to an ObjectId descriptor named
      `_id`, optional, with default None. */
  const RootBody: ClassBody :=
    ClassBody(map["_id" := TClass(ObjectIdClass)], map[], map[], {}, {}, DocumentMembers)

  /** The corrected root class is defined, and `_id` is its only field: an
      optional ObjectId field that reads None until it is set. */
  lemma RootDocumentDefined()
    ensures DefineClass(RootBody, []).Ok?
    ensures DefineClass(RootBody, []).value.fieldTypes
      == map["_id" := Descriptor(ObjectIdKind, Some("_id"), false, Literal(VNone))]
  {
    RootFieldTypes();
    DefineWithoutBases(RootBody);
  }

  lemma RootFieldTypes()
    ensures MakeFieldTypes(RootBody.structure, {}, map[])
      == Ok(map["_id" := Descriptor(ObjectIdKind, Some("_id"), false, Literal(VNone))])
  {
    var d := Descriptor(ObjectIdKind, Some("_id"), false, Literal(VNone));
    RootIdParses();
    MakeFieldTypesCharacterised(RootBody.structure, {}, map[]);
    var ft := MakeFieldTypes(RootBody.structure, {}, map[]).value;
    assert ft.Keys == {"_id"};
    assert ft == map["_id" := d];
  }

  /** The ObjectId class token for `_id` parses to an optional ObjectId
      descriptor named `_id` with default None. */
  lemma RootIdParses()
    ensures Parse(TClass(ObjectIdClass), OptionsFor({}, map[], "_id"))
      == Ok(Descriptor(ObjectIdKind, Some("_id"), false, Literal(VNone)))
  {
    var opts := OptionsFor({}, map[], "_id");
    FieldLemmas.ParseObjectIdClass(TClass(ObjectIdClass), opts);
    ClassDefaultValid(ObjectIdKind, opts);
  }

  /** A class without bases keeps its own dicts and sets. */
  lemma DefineWithoutBases(body: ClassBody)
    ensures DefineClass(body, []) ==
      match MakeFieldTypes(body.structure, body.required, body.defaultValues)
      case Err(e) => Err(e)
      case Ok(ft) =>
        Ok(DocClass(body.structure, body.defaultValues, body.fieldMap, Invert(body.fieldMap),
                    body.required, body.writeOnce, ft, body.members + MetaclassAttributes))
  {
    MergeBasesCharacterised(body.structure, Structures([]));
    MergeBasesCharacterised(body.defaultValues, DefaultValuesOf([]));
    MergeBasesCharacterised(body.fieldMap, FieldMaps([]));
  }

  /** Every class with the corrected root class among its bases has an
      `_id` field. */
  lemma EveryDocumentHasId(body: ClassBody, bases: seq<DocClass>, i: nat)
    requires i < |bases| && DefineClass(RootBody, []) == Ok(bases[i])
    requires DefineClass(body, bases).Ok?
    ensures "_id" in DefineClass(body, bases).value.fieldTypes
    ensures DefineClass(body, bases).value.fieldTypes["_id"].name == Some("_id")
  {
    RootDocumentDefined();
    DefineClassCharacterised(RootBody, []);
    assert "_id" in bases[i].structure;
    InheritsFields(body, bases);
  }

  /** The keyword arguments the root class body passes to `ObjectIdField`
      for `_id`: `name`, and also `doc` and `readonly`, which
      `Field.__init__` does not accept. */
  const RootIdOptionsAsWritten: FieldOptions := FieldOptions(Some("_id"), false, Undefined, {"doc", "readonly"})

  /** The root class body as written. Evaluating it constructs the `_id`
      descriptor first, which raises, so the body never gets as far as
      handing `structure` to the metaclass. */
  ghost function RootBodyAsWritten(): Result<ClassBody> {
    match Construct(ObjectIdKind, RootIdOptionsAsWritten)
    case Err(e) => Err(e)
    case Ok(_) => Ok(ClassBody(map["_id" := TOther], map[], map[], {}, {}, DocumentMembers))
  }

  /** As written, the root class body raises TypeError, so the module that
      defines `Document` cannot be imported. */
  lemma RootDocumentAsWrittenFails()
    ensures RootBodyAsWritten() == Err(TypeError)
  {
  }

  /** A class whose own structure maps a name other than `_id` to an object
      that is not a class (a descriptor instance, say) cannot be defined,
      whatever its bases: either the name clashes with a base's, or its
      token reaches `DocumentField.parse`, whose `issubclass` raises. */
  lemma DescriptorTokenRejected(body: ClassBody, bases: seq<DocClass>, name: string)
    requires name in body.structure && name != "_id" && body.structure[name] == TOther
    ensures DefineClass(body, bases).Err?
  {
    DefineClassCharacterised(body, bases);
    if DefineClass(body, bases).Ok? {
      var structure := Overlay(body.structure, Structures(bases));
      var required := UniteSets(body.required, RequiredOf(bases));
      var defaults := Overlay(body.defaultValues, DefaultValuesOf(bases));
      OverlayValues(body.structure, Structures(bases));
      FieldLemmas.ParseDenotation(TOther, OptionsFor(required, defaults, name));
      MakeFieldTypesCharacterised(structure, required, defaults);
      assert false;
    }
  }

  /** A subclass of the corrected root class that declares one field whose
      token is a descriptor instance raises TypeError: the inherited `_id`
      parses, the instance does not. */
  lemma DescriptorTokenInSubclass(name: string)
    requires name != "_id"
    ensures DefineClass(RootBody, []).Ok?
    ensures DefineClass(ClassBody(map[name := TOther], map[], map[], {}, {}, {}), [DefineClass(RootBody, []).value]) == Err(TypeError)
  {
    RootDocumentDefined();
    SubclassMerges(DefineClass(RootBody, []).value, name);
    SubclassFieldTypes(name);
  }

  /** The corrected root class declares `_id` and nothing else. */
  lemma RootShape(root: DocClass)
    requires DefineClass(RootBody, []) == Ok(root)
    ensures root.structure == map["_id" := TClass(ObjectIdClass)]
    ensures root.defaultValues == map[] && root.fieldMap == map[] && root.required == {}
  {
    DefineWithoutBases(RootBody);
    RootFieldTypes();
  }

  /** The dicts of a one-field subclass of the corrected root class merge
      with the root's without a clash. */
  lemma SubclassMerges(root: DocClass, name: string)
    requires DefineClass(RootBody, []) == Ok(root) && name != "_id"
    ensures MergeBases(map[name := TOther], Structures([root])) == Ok(map[name := TOther, "_id" := TClass(ObjectIdClass)])
    ensures MergeBases(map[], DefaultValuesOf([root])) == Ok(map[])
    ensures MergeBases(map[], FieldMaps([root])).Ok?
    ensures UniteSets({}, RequiredOf([root])) == {}
  {
    RootShape(root);
    StructureMergesWithRoot(root, name);
    DictsMergeWithRoot(root);
  }

  lemma StructureMergesWithRoot(root: DocClass, name: string)
    requires root.structure == map["_id" := TClass(ObjectIdClass)] && name != "_id"
    ensures MergeBases(map[name := TOther], Structures([root])) == Ok(map[name := TOther, "_id" := TClass(ObjectIdClass)])
  {
    var own := map[name := TOther];
    SingleBaseMerges(own, Structures([root]));
    assert own + root.structure == own["_id" := TClass(ObjectIdClass)];
  }

  lemma DictsMergeWithRoot(root: DocClass)
    requires root.defaultValues == map[] && root.fieldMap == map[] && root.required == {}
    ensures MergeBases(map[], DefaultValuesOf([root])) == Ok(map[])
    ensures MergeBases(map[], FieldMaps([root])).Ok?
    ensures UniteSets({}, RequiredOf([root])) == {}
  {
    SingleBaseMerges(map[], DefaultValuesOf([root]));
    SingleBaseMerges(map[], FieldMaps([root]));
  }

  /** Merging with one base whose keys are `_id` or absent from the class
      overlays the base on the class. */
  lemma SingleBaseMerges<V>(own: map<string, V>, bases: seq<map<string, V>>)
    requires |bases| == 1 && forall k :: k in bases[0] && k != "_id" ==> k !in own
    ensures MergeBases(own, bases) == Ok(own + bases[0])
  {
    MergeBasesCharacterised(own, bases);
    assert bases[..0] == [];
  }

  /** With `_id` parsing, the descriptor instance is the token that fails. */
  lemma SubclassFieldTypes(name: string)
    requires name != "_id"
    ensures MakeFieldTypes(map[name := TOther, "_id" := TClass(ObjectIdClass)], {}, map[]) == Err(TypeError)
  {
    RootIdParses();
    FieldLemmas.ParseDenotation(TOther, OptionsFor({}, map[], name));
    MakeFieldTypesCharacterised(map[name := TOther, "_id" := TClass(ObjectIdClass)], {}, map[]);
  }

  // ----- the class statement as written -----

  /** The `default` keyword as written: `default_values.get(name)`, which is
      None when the class declares no default. */
  function DefaultArgAsWritten(defaults: map<string, Default>, name: string): DefaultArg {
    Given(if name in defaults then defaults[name] else Literal(VNone))
  }

  /** The keyword arguments as written, which always include `write_once`
      (with whatever value: no constructor has such a parameter). */
  function OptionsAsWritten(required: set<string>, defaults: map<string, Default>, name: string): FieldOptions {
    FieldOptions(Some(name), name in required, DefaultArgAsWritten(defaults, name), {"write_once"})
  }

  /** `make_field_types` as written. */
  ghost function MakeFieldTypesAsWritten(structure: map<string, Token>, required: set<string>, defaults: map<string, Default>): Result<map<string, Descriptor>> {
    ParseStructure(structure, Enumerate(structure.Keys), n => OptionsAsWritten(required, defaults, n))
  }

  /** As written, no class with a non-empty structure can be defined: the
      `write_once` keyword reaches a constructor that does not accept it. */
  lemma MakeFieldTypesAsWrittenAlwaysFails(structure: map<string, Token>, required: set<string>, defaults: map<string, Default>)
    requires structure != map[]
    ensures MakeFieldTypesAsWritten(structure, required, defaults).Err?
  {
    var opts := n => OptionsAsWritten(required, defaults, n);
    var ns := Enumerate(structure.Keys);
    ParseStructureCharacterised(structure, ns, opts);
    var n :| n in structure;
    assert n in ns;
    ParseConstructs(structure[n], OptionsAsWritten(required, defaults, n));
  }

  /** The class statement as written: `make_field_types` passes
      `write_once` and a None default, and `inverse_field_map` is a copy of
      the field map. */
  ghost function DefineClassAsWritten(body: ClassBody, bases: seq<DocClass>): Result<DocClass> {
    var structure :- MergeBases(body.structure, Structures(bases));
    var defaults :- MergeBases(body.defaultValues, DefaultValuesOf(bases));
    var fieldMap :- MergeBases(body.fieldMap, FieldMaps(bases));
    var required := UniteSets(body.required, RequiredOf(bases));
    var writeOnce := UniteSets(body.writeOnce, WriteOnceOf(bases));
    var fieldTypes :- MakeFieldTypesAsWritten(structure, required, defaults);
    var members := UniteSets(body.members, MembersOf(bases)) + MetaclassAttributes;
    Ok(DocClass(structure, defaults, fieldMap, InverseFieldMapAsWritten(fieldMap), required, writeOnce, fieldTypes, members))
  }

  /** As written, a class statement succeeds only when neither the class nor
      any of its bases declares a field; such a class has no descriptors,
      and its inverse field map is its field map. */
  lemma DefineClassAsWrittenFails(body: ClassBody, bases: seq<DocClass>)
    ensures DefineClassAsWritten(body, bases).Ok? <==>
      Disjoint(body.structure, Structures(bases))
      && Disjoint(body.defaultValues, DefaultValuesOf(bases))
      && Disjoint(body.fieldMap, FieldMaps(bases))
      && Overlay(body.structure, Structures(bases)) == map[]
    ensures DefineClassAsWritten(body, bases).Ok? ==>
      var c := DefineClassAsWritten(body, bases).value;
      c.fieldTypes == map[] && c.inverseFieldMap == c.fieldMap
  {
    MergeBasesCharacterised(body.structure, Structures(bases));
    MergeBasesCharacterised(body.defaultValues, DefaultValuesOf(bases));
    MergeBasesCharacterised(body.fieldMap, FieldMaps(bases));
    var structure := Overlay(body.structure, Structures(bases));
    var required := UniteSets(body.required, RequiredOf(bases));
    var defaults := Overlay(body.defaultValues, DefaultValuesOf(bases));
    if structure != map[] {
      MakeFieldTypesAsWrittenAlwaysFails(structure, required, defaults);
    } else {
      assert structure.Keys == {};
      assert Enumerate(structure.Keys) == [];
    }
  }

  /** As written, an undeclared default reaches the descriptor as None: an
      `int` field without a default fails its own validation. The
      corrected keyword arguments give it the class's default 0 instead. */
  lemma UndeclaredDefaultAsWrittenRejected()
    ensures Parse(TClass(IntClass), FieldOptions(Some("age"), false, DefaultArgAsWritten(map[], "age"), {})) == Err(TypeError)
    ensures Parse(TClass(IntClass), OptionsFor({}, map[], "age")) == Ok(Descriptor(IntKind, Some("age"), false, Literal(VInt(0))))
  {
    FieldLemmas.ParseDenotation(TClass(IntClass), FieldOptions(Some("age"), false, DefaultArgAsWritten(map[], "age"), {}));
    FieldLemmas.ParseDenotation(TClass(IntClass), OptionsFor({}, map[], "age"));
  }

  /** With the corrected keyword arguments, a field declared by a class
      token and without a declared default parses whenever the class is one
      a scalar descriptor accepts, and takes that descriptor's own default. */
  lemma UndeclaredDefaultTakesClassDefault(c: ClassTag, name: string, required: set<string>, defaults: map<string, Default>)
    requires name !in defaults
    requires c in {BoolClass, BytesClass, UnicodeClass, IntClass, LongClass, FloatClass, ObjectIdClass, NoneTypeClass}
    ensures Parse(TClass(c), OptionsFor(required, defaults, name)).Ok?
    ensures Parse(TClass(c), OptionsFor(required, defaults, name)).value.default
      == DefaultDefault(Parse(TClass(c), OptionsFor(required, defaults, name)).value.kind)
  {
    var opts := OptionsFor(required, defaults, name);
    FieldLemmas.ParseDenotation(TClass(c), opts);
    assert opts.default == Undefined && opts.unexpected == {};
    var k := match c
      case BoolClass => BoolKind
      case BytesClass => BlobKind
      case UnicodeClass => UnicodeKind
      case IntClass => IntKind
      case LongClass => IntKind
      case FloatClass => FloatKind
      case _ => ObjectIdKind;
    assert Parse(TClass(c), opts) == Construct(k, opts);
    ClassDefaultValid(k, opts);
  }

  /** Every scalar descriptor's own default passes its validation. */
  lemma ClassDefaultValid(k: Kind, opts: FieldOptions)
    requires IsScalar(k) && opts.default == Undefined && opts.unexpected == {}
    ensures Construct(k, opts).Ok? && Construct(k, opts).value.default == DefaultDefault(k)
  {
  }

  /** The inverse field map as the metaclass builds it: a copy of the field
      map. */
  function InverseFieldMapAsWritten(fm: FieldMap): map<string, string> {
    fm
  }

  /** As written, the inverse field map maps long names, not short ones:
      with {"name": "n"} it has no entry for "n". */
  lemma InverseFieldMapAsWrittenIsCopy()
    ensures var fm := map["name" := "n"];
      InverseFieldMapAsWritten(fm) == fm && "n" !in InverseFieldMapAsWritten(fm) && "n" in Invert(fm)
  {
    var fm := map["name" := "n"];
    assert "n" in fm.Values by { assert fm["name"] == "n"; }
  }
}
