# mongotron change tracking, modelled in Dafny

This project models the local change-tracking core of mongotron, a Python 2
object-document mapper for MongoDB, and proves properties of that model. The
core has three parts:

- **Field descriptors** (`field_types.dfy`, `field_lemmas.dfy`). This is the closed
  set of descriptor kinds: any, list, set, fixed list, bool, blob, unicode,
  int, float and ObjectId. Each kind has its own `validate`, `collapse`
  (application form to storage form) and `expand` (storage form back). The
  schema mini-language's parser tries the `TYPE_ORDER` classes in order.
- **Documents** (`values.dfy`, `document_meta.dfy`, `key_mapping.dfy`,
  `documents.dfy`, `access.dfy`, `loading.dfy`, `save_protocol.dfy`):
  - the metaclass's schema merge across base classes;
  - long/short key renaming;
  - the document record itself: attributes, the dirty set, and the pending
    operations (operator → short key → operands);
  - its transitions: `set`, `unset`, `add_operation` and its wrappers,
    `operations`, `clear_ops`, `load_dict`, `validate`;
  - descriptor reads and writes;
  - the `save` protocol, with hooks and the store as parameters.
- **Container wrappers** (`tracking.dfy`, `tracking_list.dfy`,
  `tracking_dict.dfy`, `tracking_set.dfy`):
  - the list and the dict notify their owner, then apply the plain operation;
  - the set applies the plain operation, then writes its collapsed contents
    back into the document through `set`.

Values are a small datatype covering None, bool, int, long, float, str,
unicode, `bson.Binary`, ObjectId, list, set and dict. Python's set and dict
iteration order is a ghost enumeration (`Values.Enumerate`). Every operation
that depends on it is therefore a ghost function, and its contract is stated
independently of the order wherever the result does not depend on it.

Where an operation raises, the model returns an error value (`Result`,
`Outcome`, or a status in a `Step`). Where the source mutates an object and
then raises, the model returns both the new state and the error.

## Model

| member | source | states |
|---|---|---|
| Errors.FirstFailure | mongotron/field_types.py:132-137 | validating elements in order passes exactly when every element passes; otherwise the failure is that of the first failing element, every earlier one having passed |
| Errors.Collect | mongotron/field_types.py:139-149 | mapping a raising conversion over a sequence succeeds exactly when every element converts, keeping length and order; otherwise the error is that of the first element that fails, every earlier one having converted |
| Values.Enumerate | mongotron/Document.py:215 | iterating the keys of a dict or set (here `field_types.iteritems()`) visits every member exactly once and nothing else, in an order the model leaves open |
| Values.Iterate | mongotron/ChangeTrackingList.py:46-50 | iterating a list yields its items; a set yields its members once each; only lists, sets, dicts and strings are iterable |
| FieldTypes.ScalarCheck | mongotron/field_types.py:229-233 | a scalar descriptor accepts exactly the instances of its `TYPES`, and ObjectId also accepts None; anything else gives TypeError |
| FieldTypes.ToLong | mongotron/field_types.py:284-286 | the int collapse is `long(value)`: every result is a long; ints and longs keep their number; it fails exactly for byte strings that are not decimal literals (whitespace around the literal and between its sign and its digits, an optional `L` suffix), unicode strings that cannot be encoded digit by digit (UnicodeEncodeError) or whose encoding is not a decimal literal (ValueError), and values that are neither numbers nor strings (TypeError) |
| FieldTypes.EncodeDecimal | mongotron/field_types.py:284-286 | before parsing a unicode string, `long` encodes it character by character: it succeeds exactly when every character is a Unicode space, a decimal digit of any script, or between 1 and 255; spaces become ASCII spaces and digits ASCII digits of the same value; otherwise UnicodeEncodeError |
| FieldLemmas.AsciiUnicodeAsStr | mongotron/field_types.py:284-286 | a unicode string of ASCII characters other than the control whitespace converts exactly as the byte string with those characters |
| FieldLemmas.AsciiDecimal | mongotron/field_types.py:284-286 | below the Arabic-Indic digits only the ASCII digits are decimal digits, each standing for its own value |
| FieldLemmas.ForeignDigits | mongotron/field_types.py:284-286 | `long(u'\u0661\u0662')`, in Arabic-Indic digits, is 12 |
| FieldLemmas.UnicodeSpaces | mongotron/field_types.py:284-286 | `long()` of a unicode string skips a no-break space or ideographic space around the numeral, while the same no-break space in a byte string gives ValueError |
| FieldLemmas.UnencodableCharacter | mongotron/field_types.py:284-286 | `long(u'\u03b1')` raises UnicodeEncodeError, not ValueError |
| FieldLemmas.LiteralParses | mongotron/field_types.py:284-286 | every decimal literal parses to its value: whitespace, an optional sign, whitespace, at least one digit, an optional `L` or `l`, whitespace |
| FieldLemmas.LiteralConverts | mongotron/field_types.py:284-286 | `long()` of a byte string holding such a literal is a long of the literal's value |
| FieldLemmas.LiteralsExactly | mongotron/field_types.py:284-286 | a string parses exactly when it splits into whitespace, an optional sign, whitespace, at least one digit, an optional `L` or `l` and whitespace, and then to the value of that split |
| FieldLemmas.ParsedIsLiteral | mongotron/field_types.py:284-286 | every string the parser accepts splits into the parts of a decimal literal |
| FieldLemmas.SpaceAfterSign | mongotron/field_types.py:284-286 | `long('- 5')` is -5 |
| FieldLemmas.TabAfterSign | mongotron/field_types.py:284-286 | `long(' -\t7L ')` is -7 |
| FieldLemmas.UnicodeSpaceAfterSign | mongotron/field_types.py:284-286 | `long(u'- 5')` is -5: the unicode string encodes to itself and parses like the byte string |
| FieldLemmas.EncodeDigit | mongotron/field_types.py:284-286 | every decimal digit of any script, as listed in the digit table, has its digit value, is not a Unicode space, and encodes to the ASCII digit of that value |
| FieldLemmas.UnicodeNumeral | mongotron/field_types.py:284-286 | `long()` of any unicode string made of Unicode spaces, a non-empty run of decimal digits of any scripts and Unicode spaces is a long whose value is read from the digit values, most significant first |
| FieldTypes.StrOf | mongotron/field_types.py:258-261 | the blob expand is `str(value)`: every result is a byte string, and a byte string or `Binary` gives back its own bytes |
| FieldTypes.Collapse | mongotron/field_types.py:75-286 | container descriptors collapse to a list (a set field too), blobs to `Binary`, ints to longs, and a list field keeps the length |
| FieldTypes.Expand | mongotron/field_types.py:81-261 | the storage form expands per kind: a list to a list of the same length, a set field's list to a set, a blob to a byte string |
| FieldTypes.Construct | mongotron/field_types.py:36-48 | a constructed descriptor keeps the kind, name and required flag; its default is the declared one or the class default, and that default passes `validate`; any keyword other than `name`, `required` and `default`, or a fixed list with elements, is refused with TypeError |
| FieldTypes.ParseItems | mongotron/field_types.py:219-223 | parsing a list token's items gives one descriptor per item |
| FieldLemmas.ParseInFirstMatch | mongotron/field_types.py:341-356 | the parser's loop returns the result of the first class in order that recognises the token |
| FieldLemmas.ParseInNoMatch | mongotron/field_types.py:341-356 | when no class recognises the token, the parser raises ValueError |
| FieldLemmas.ParseDenotation | mongotron/field_types.py:88-356 | `parse` equals a direct case analysis of the token: None is a plain field; an empty list and an empty set or frozenset are any-element lists; a one-item list is a list of the item's descriptor; a longer list raises; each scalar class gives its kind |
| FieldLemmas.ParseListToken | mongotron/field_types.py:151-223 | the same for list tokens: ListField claims lengths 0 and 1, and FixedListField claims the rest |
| FieldLemmas.ParseSetToken | mongotron/field_types.py:151-166 | the same for set tokens: an empty set or frozenset equals ListField's `EMPTY_VALUE`, and ListField precedes SetField; any other set raises TypeError |
| FieldLemmas.EmptySetTokens | mongotron/field_types.py:151-166 | `frozenset()` declares a list of any values, exactly as `set()` does |
| FieldLemmas.ParseClassToken | mongotron/field_types.py:326-338 | the same for class tokens, through the scalar classes' `TYPES` in order |
| FieldLemmas.ParseScalarToken | mongotron/field_types.py:236-239 | a class first listed in the `TYPES` of the k-th scalar class parses to that class's descriptor |
| FieldLemmas.ParseIntegerClass | mongotron/field_types.py:277-282 | `int` and `long` both parse to an int descriptor |
| FieldLemmas.ParseObjectIdClass | mongotron/field_types.py:270-274 | the ObjectId class and None's type both parse to an ObjectId descriptor |
| FieldLemmas.ParseDocumentClass | mongotron/field_types.py:299-321 | a Document subclass reaches DocumentField, whose constructor raises UnboundLocalError |
| FieldLemmas.ParseUnclaimedClass | mongotron/field_types.py:355-356 | a class that no descriptor class lists gives ValueError |
| FieldLemmas.ClassSkips | mongotron/field_types.py:326-338 | a class token skips every class before the first scalar class that lists it |
| FieldLemmas.EachPasses | mongotron/field_types.py:132-137 | a list that passes `validate` has every element passing |
| FieldLemmas.EachPassesPositionally | mongotron/field_types.py:199-207 | a fixed list that passes `validate` has every position passing its own descriptor |
| FieldLemmas.CanonHashable | mongotron/field_types.py:180-182 | the read-back form of a valid hashable value is hashable, so a set field's expansion can rebuild the set |
| FieldLemmas.ExpandAfterCollapse | mongotron/field_types.py:64-261 | for every descriptor and every valid value, collapse succeeds and expand returns the value's read-back form (blobs as `str`, ints as longs, element by element) |
| FieldLemmas.ListRoundTrip | mongotron/field_types.py:139-149 | the same for list fields, element by element |
| FieldLemmas.SetRoundTrip | mongotron/field_types.py:176-182 | the same for set fields: list out, set back, whatever the iteration order |
| FieldLemmas.SetCollapseIs | mongotron/field_types.py:176-178 | a set field collapses to the list of its members' collapses in iteration order |
| FieldLemmas.SetExpandIs | mongotron/field_types.py:180-182 | a set field expands a list to the set of its items' expansions |
| FieldLemmas.FixedRoundTrip | mongotron/field_types.py:209-217 | the same for fixed lists, position by position |
| FieldLemmas.CanonValid | mongotron/field_types.py:71-233 | the read-back form of a valid value is itself valid |
| FieldLemmas.CollapseOfCanon | mongotron/field_types.py:139-286 | collapsing the read-back form stores the same value as collapsing the original |
| FieldLemmas.StorageRoundTrip | mongotron/field_types.py:64-87 | for set-free descriptors, collapse after expand after collapse gives back the stored form |
| KeyMapping.RenamePairsDomain | mongotron/Document.py:466-479 | the renamed dict has exactly the short names of the visited keys |
| KeyMapping.RenamePairsLastWins | mongotron/Document.py:466-479 | when several keys share a short name, the last visited one's value wins |
| KeyMapping.RenamePairsEntry | mongotron/Document.py:466-479 | every entry of the renamed dict comes from some visited key with that short name |
| KeyMapping.RenameDomain | mongotron/Document.py:557-561 | `document_as_dict` has exactly the short names of the attribute keys |
| KeyMapping.RenameEntry | mongotron/Document.py:557-561 | each of its values is the value of an attribute with that short name |
| KeyMapping.RenameExact | mongotron/Document.py:557-561 | when no two keys share a short name, each attribute appears under its short name with its own value |
| KeyMapping.RenameEmptyMap | mongotron/Document.py:202-205 | with an empty field map, `long_to_short` is the identity and renaming changes nothing |
| KeyMapping.MapSearchRenames | mongotron/Document.py:453-479 | `map_search_list`/`map_search_dict` rename every dict key at every depth; lists keep length and order; scalars are unchanged |
| KeyMapping.MapSearchRenamesDict | mongotron/Document.py:465-479 | the same, starting from a dict |
| KeyMapping.LastWithShortName | mongotron/Document.py:466-479 | some last visited key carries each short name |
| KeyMapping.MapSearchEmptyMap | mongotron/Document.py:453-479 | with an empty field map, the search maps return their argument unchanged |
| KeyMapping.ShortToLongAsWrittenNotInverse | mongotron/Document.py:207-211 | as written, `short_to_long` does not undo `long_to_short` (see Findings) |
| KeyMapping.Invert | mongotron/Document.py:53-54 | the corrected inverse field map has exactly the short names as keys, each mapping back to a long name with that short name |
| KeyMapping.ShortToLongInverse | mongotron/Document.py:202-211 | the corrected `short_to_long` undoes `long_to_short` on an injective map, and `long_to_short` undoes it on every short name |
| DocumentMeta.MergeKeysCharacterised | mongotron/Document.py:68-78 | the merge loop succeeds exactly when no visited base key other than `_id` is in the child; the merged dict holds the base's value for visited keys and the child's for the rest |
| DocumentMeta.MergeCarefullyCharacterised | mongotron/Document.py:68-78 | `merge_carefully` raises TypeError on a clash other than `_id`, and otherwise gives the child overlaid by the base |
| DocumentMeta.MergeClash | mongotron/Document.py:72-76 | a clash on a key other than `_id` raises TypeError |
| DocumentMeta.MergeNoClash | mongotron/Document.py:72-78 | without a clash, every base entry is copied in, and for `_id` the base overwrites the child |
| DocumentMeta.OverlayIsUnion | mongotron/Document.py:72-78 | a dict holding the child's and then the base's entries is their overlay |
| DocumentMeta.OverlayKeys | mongotron/Document.py:41-44 | after merging every base, the class holds exactly its own keys and its bases' keys |
| DocumentMeta.OverlayAt | mongotron/Document.py:41-44 | with disjoint declarations, each key keeps the value its declaring class gave it |
| DocumentMeta.OverlayValues | mongotron/Document.py:41-44 | the same, for all keys at once |
| DocumentMeta.DisjointStep | mongotron/Document.py:41-44 | the bases are disjoint exactly when each base does not clash with the merge of the earlier ones |
| DocumentMeta.DisjointInit | mongotron/Document.py:41-44 | when the class and its bases declare disjoint keys, so do the class and all but the last base, and the last base shares no key but `_id` with their merge |
| DocumentMeta.DisjointExtend | mongotron/Document.py:41-44 | a last base that shares no key but `_id` with the merge of disjoint earlier declarations keeps the whole set disjoint |
| DocumentMeta.MergeBasesCharacterised | mongotron/Document.py:41-44 | merging the bases in order succeeds exactly when no two declare the same key (apart from `_id`), and then gives the overlay; otherwise TypeError |
| DocumentMeta.MergeBasesContents | mongotron/Document.py:41-44 | a successful merge has exactly the declared keys, each with its declaring class's value |
| DocumentMeta.UniteSets | mongotron/Document.py:46-51 | `required` and `write_once` are the union of the class's own set and each base's set |
| DocumentMeta.ParseStructureCharacterised | mongotron/Document.py:86-98 | the field-type loop succeeds exactly when every token parses, and gives each key its token's descriptor; on failure the error is some token's parse error |
| DocumentMeta.MakeFieldTypesCharacterised | mongotron/Document.py:86-98 | with the corrected keyword arguments, every declared field gets its token's descriptor, named after the field, required exactly when listed |
| DocumentMeta.ParseConstructs | mongotron/field_types.py:36-48 | a parsed descriptor carries the name and required flag it was given; a `write_once` keyword always fails |
| DocumentMeta.DefineClassCharacterised | mongotron/Document.py:40-98 | the corrected class statement (see Findings) succeeds exactly when the structures, defaults and field maps of the class and its bases are disjoint and every field parses; the class then holds their overlays, the unions, the inverse field map, the descriptors, and its own and its bases' members plus the metaclass's attributes |
| DocumentMeta.DefineClassFields | mongotron/Document.py:46-98 | under the corrected class statement, a defined class's descriptors cover exactly its structure; each is named after its key and required exactly when the class or a base lists it |
| DocumentMeta.InheritsFields | mongotron/Document.py:41-44 | every field a base declares is a descriptor of the derived class under its own name |
| DocumentMeta.DefineClassAsWrittenFails | mongotron/Document.py:40-98 | as written, a class statement succeeds exactly when the dicts are disjoint and neither the class nor any base declares a field; such a class has no descriptors and its inverse field map is its field map |
| DocumentMeta.RootDocumentDefined | mongotron/Document.py:110-114 | the corrected root class is defined and `_id` is its only descriptor: an optional ObjectId field named `_id` whose default is None |
| DocumentMeta.RootFieldTypes | mongotron/Document.py:110-114 | the corrected root structure parses to that one `_id` descriptor |
| DocumentMeta.RootIdParses | mongotron/Document.py:110-114 | the ObjectId class given for `_id` parses to an ObjectId descriptor named `_id`, not required, with a None default |
| DocumentMeta.DefineWithoutBases | mongotron/Document.py:40-98 | a class without bases keeps its own dicts and sets, with the inverse of its field map, and adds the metaclass's attributes to its members |
| DocumentMeta.EveryDocumentHasId | mongotron/Document.py:40-114 | every class defined with the corrected root class among its bases has an `_id` descriptor named `_id` |
| DocumentMeta.RootDocumentAsWrittenFails | mongotron/Document.py:110-114 | as written, the root class body raises TypeError (the `_id` descriptor gets `doc` and `readonly`), so the module cannot be imported (see Findings) |
| DocumentMeta.DescriptorTokenRejected | mongotron/field_types.py:315-320 | a class whose own structure maps a name other than `_id` to an object the mini-language does not recognise (`TOther`), such as a descriptor instance, cannot be defined whatever its bases: `DocumentField.parse` calls `issubclass` on it |
| DocumentMeta.DescriptorTokenInSubclass | mongotron/field_types.py:315-320 | a subclass of the corrected root class declaring one field whose token is a descriptor instance raises TypeError, while the inherited `_id` parses |
| DocumentMeta.MakeFieldTypesAsWrittenAlwaysFails | mongotron/Document.py:92-97 | as written, `make_field_types` fails for every non-empty structure (see Findings) |
| DocumentMeta.UndeclaredDefaultAsWrittenRejected | mongotron/Document.py:95 | as written, an `int` field without a declared default fails its own validation; the corrected call gives it default 0 |
| DocumentMeta.UndeclaredDefaultTakesClassDefault | mongotron/Document.py:86-98 | with the corrected keyword arguments, a scalar class token without a declared default parses and takes its descriptor's own default |
| DocumentMeta.ClassDefaultValid | mongotron/field_types.py:36-48 | every scalar descriptor's own default passes its validation |
| DocumentMeta.InverseFieldMapAsWrittenIsCopy | mongotron/Document.py:53-54 | as written, the inverse field map is a copy of the field map, with no entry for a short name |
| Documents.Enqueue | mongotron/Document.py:296-312 | queueing appends the operands (a list spread, a scalar as one) to those under the operator and key; every other operator and key is unchanged |
| Documents.AddOperation | mongotron/Document.py:278-312 | any operator but `$unset` on an undeclared key raises KeyError; a failing collapse raises its error; `$set` raises ValueError after creating an empty `$set` entry; otherwise exactly the collapsed operand is queued under the short key; attributes and dirty set never change |
| Documents.Unset | mongotron/Document.py:351-365 | `unset` removes the attribute and queues operand 1 under `$unset` for the short name; the dirty set and all other attributes are unchanged |
| Documents.Set | mongotron/Document.py:339-349 | `set` with a value other than None stores it, marks the key dirty and leaves the pending operations alone; with None it is exactly `unset` |
| Documents.UnsetIsAddOperation | mongotron/Document.py:360-365 | `unset`'s queueing is `add_operation('$unset', key, 1)` |
| Documents.MarkDirty | mongotron/Document.py:333-337 | `mark_dirty` adds the key to the dirty set and changes nothing else |
| Documents.Inc | mongotron/Document.py:369-372 | `inc` succeeds exactly when the field is declared and its collapse succeeds, and then appends the operand (1 when none is given) under `$inc`; nothing is summed; an undeclared key gives KeyError and a failing collapse its own error, with the document unchanged; attributes, dirty set, identity and every other queue never change |
| Documents.NegAbs | mongotron/Document.py:374-377 | `-abs(value)` is defined exactly on numbers, is never positive and has the value's magnitude; other values raise TypeError |
| Documents.NegAbsIgnoresSign | mongotron/Document.py:374-377 | `dec(key, n)` and `dec(key, -n)` queue the same operand |
| Documents.Dec | mongotron/Document.py:374-377 | `dec` succeeds exactly when the value (1 when none is given) has `abs`, the field is declared and `-abs(value)` collapses, and then queues `-abs(value)` under `$inc`; a value without `abs` gives TypeError, an undeclared key KeyError, a failing collapse its own error; attributes, dirty set, identity and every other queue never change |
| Documents.AddToSet | mongotron/Document.py:380-383 | `addToSet` succeeds exactly when the field is declared and its collapse succeeds, and then appends the collapsed operand under `$addToSet`; an undeclared key gives KeyError and a failing collapse its own error, with the document unchanged; attributes, dirty set, identity and every other queue never change |
| Documents.Push | mongotron/Document.py:394-397 | `push` succeeds exactly when the field is declared and its collapse succeeds, and then appends the collapsed operand under `$pushAll`; an undeclared key gives KeyError and a failing collapse its own error, with the document unchanged; attributes, dirty set, identity and every other queue never change |
| Documents.Pull | mongotron/Document.py:388-391 | `pull` succeeds exactly when the field is declared and its collapse succeeds, and then appends the collapsed operand under `$pullAll`; an undeclared key gives KeyError and a failing collapse its own error, with the document unchanged; attributes, dirty set, identity and every other queue never change |
| Documents.EnqueueAllAccumulates | mongotron/Document.py:296-312 | repeated calls queue every operand in call order, and nothing else changes |
| Documents.RenderOp | mongotron/Document.py:296-320 | an operator's pending operands render per key, with `$addToSet` wrapped in `$each` |
| Documents.RenderPending | mongotron/Document.py:314-320 | every pending operator is rendered |
| Documents.Operations | mongotron/Document.py:314-320 | `operations` fails with KeyError exactly when a dirty key has no attribute; otherwise it returns every pending operator plus `$set` |
| Documents.OperationsSet | mongotron/Document.py:314-320 | the `$set` map has exactly the short names of the dirty keys, each holding its attribute when short names are distinct |
| Documents.SetThenUnsetBreaksOperations | mongotron/Document.py:314-365 | after `set(k, v)` and then `unset(k)`, `operations` raises KeyError |
| Documents.ClearOps | mongotron/Document.py:323-328 | `clear_ops` empties the pending operations and the dirty set and keeps the attributes |
| Documents.OperationsAfterClear | mongotron/Document.py:314-328 | after `clear_ops`, `operations` is just an empty `$set` |
| Documents.ValidateRequired | mongotron/Document.py:139-151 | `validate` passes exactly when every required key has an attribute; otherwise ValidationError lists exactly the missing ones |
| Access.FieldGet | mongotron/field_types.py:50-62 | reading a field gives `make()` when nothing (or None) is stored, and otherwise the expansion of the stored value |
| Access.ListGet | mongotron/field_types.py:123-129 | a container field reads as a fresh list: a list keeps its items, and a set gives each member once |
| Access.Attribute | mongotron/field_types.py:50-62 | reading a name that is neither a field, a member of the class, an attribute every object has (`__class__`, `__module__`, `__doc__`, ...) nor one of the instance attributes every document sets (`_Document__attributes`, ...) raises AttributeError; any of those is found; a fixed-list field raises TypeError because it borrows the list descriptor's unbound `__get__`; list and set fields read through the list descriptor, the others through the plain one |
| Access.Assign | mongotron/field_types.py:64-69 | writing validates, then stores the collapsed value through `set`: exactly valid values of declared fields other than fixed lists are accepted, only that key changes, and it becomes dirty unless the collapse is None; an undeclared name gives AttributeError, a fixed-list field TypeError, an invalid value its validation error |
| Access.IdOf | mongotron/Document.py:399-407 | `self._id` reads the `_id` field exactly as any attribute read does, and raises AttributeError when the class has neither an `_id` field nor an `_id` member |
| Access.ReadAfterAssign | mongotron/field_types.py:50-69 | reading after writing a valid value gives its read-back form, or the default when it collapsed to None |
| Access.StoredFormStable | mongotron/field_types.py:50-69 | writing back what was read leaves a set-free field's document unchanged |
| Access.Identity | mongotron/Document.py:399-407 | `identity` fails exactly when reading `_id` fails, with that error; otherwise it is `{'_id': id}` with a truthy id: the existing id when truthy, and the fresh ObjectId supplied when it is falsy |
| Loading.MergeFieldsAt | mongotron/Document.py:213-221 | after `merge_dict`, each visited field holds the stored value under its short name, unchanged, or is set from its declared default and becomes dirty, or is unset when that default is None; other keys are untouched |
| Loading.MergeFieldAt | mongotron/Document.py:217-221 | one pass of the `merge_dict` loop changes only its own key, to the stored value or the default; it marks that key dirty exactly when it fills a default that is not None, and queues nothing but `$unset` |
| Loading.LoadDict | mongotron/Document.py:223-229 | `load_dict` clears the pending state and attributes, merges the dict, then captures the identity; if `identity()` raises, the loaded state stays |
| Loading.LoadDictCharacterised | mongotron/Document.py:213-229 | after `load_dict`, the declared fields are exactly the loaded ones, the dirty keys are exactly those filled from defaults, and only `$unset` can be pending |
| Loading.LoadDictAt | mongotron/Document.py:213-229 | the same for one key: a declared field is loaded or default-filled, an undeclared key has no attribute and is not dirty |
| Loading.LoadedKeys | mongotron/Document.py:213-221 | `merge_dict` never creates an attribute for an undeclared key |
| SaveProtocol.Finish | mongotron/Document.py:434-442 | the part after the store call only extends the trace |
| SaveProtocol.SaveWith | mongotron/Document.py:409-420 | a save always starts with `pre_save` |
| SaveProtocol.Write | mongotron/Document.py:427-442 | after the pre-insert or pre-update hook, the run records validation of the state those hooks left before anything else |
| SaveProtocol.WriteShape | mongotron/Document.py:427-442 | from validation on, the store is called exactly when validation, the collection and `operations` succeed, with the captured identity as query; a store error stops with the state unchanged; a completed run ends with no pending state |
| SaveProtocol.FinishFollows | mongotron/Document.py:434-442 | after the store answers, the run continues in protocol order, reaches the post hooks exactly when reloading succeeds, and `post_save` sees a cleared instance |
| SaveProtocol.SaveWithShape | mongotron/Document.py:409-442 | for any hooks, store and steps, a run follows pre-save, pre-insert/update, validate, store, post-insert/update, post-save; it is pre-insert exactly when `_id` is None; the store is called exactly when validation passes; the query is the captured identity; a store failure stops with pending state kept |
| SaveProtocol.SaveFollowsProtocol | mongotron/Document.py:409-442 | `save` with the model's own steps follows the protocol order |
| SaveProtocol.StoreCallAfterValidation | mongotron/Document.py:427-434 | the one store call comes after validation passes; it upserts the compiled operations against the identity captured at the last load |
| SaveProtocol.ValidationFailureStopsSave | mongotron/Document.py:148-151 | a missing required field stops the save with ValidationError before any store call |
| SaveProtocol.StoreFailureKeepsPending | mongotron/Document.py:431-442 | when the store call fails, the save stops and the pending operations and dirty set are kept |
| SaveProtocol.FinishExtends | mongotron/Document.py:434-442 | after a successful store call, the post hooks run exactly when reloading the returned document succeeds |
| SaveProtocol.ClearedBeforePostSave | mongotron/Document.py:434-442 | `post_save` always sees the pending operations and dirty set cleared |
| SaveProtocol.InsertExactlyWhenNew | mongotron/Document.py:421-426 | the pre-insert hook runs exactly when `_id` reads as None, and pre-update otherwise |
| SaveProtocol.Delete | mongotron/Document.py:444-451 | `delete` asserts a truthy `_id`, then removes by `{'_id': id}`; it returns True exactly when every step succeeds |
| Tracking.Notify | mongotron/ChangeTrackingList.py:73-75 | a wrapper notifies at most once, and exactly when it has an owner with the hook, passing its name and itself as the sender |
| TrackingList.Track | mongotron/ChangeTrackingList.py:15-19 | a tracked list holds the given items and name, and keeps its owner exactly when the owner is truthy |
| TrackingList.Without | mongotron/ChangeTrackingList.py:26-30 | deleting one position shifts the rest left and removes exactly that element from the multiset |
| TrackingList.SetItem | mongotron/ChangeTrackingList.py:21-24 | item assignment notifies first; it succeeds exactly for an index in range (negative from the end) and changes only that position; otherwise IndexError with the list unchanged |
| TrackingList.DelItem | mongotron/ChangeTrackingList.py:26-30 | item deletion notifies first; in range it removes exactly that element, otherwise IndexError |
| TrackingList.Append | mongotron/ChangeTrackingList.py:40-44 | `append` notifies and adds one element at the end, keeping the rest |
| TrackingList.Extend | mongotron/ChangeTrackingList.py:46-50 | `extend` notifies and concatenates the argument's iteration; a non-iterable gives TypeError with the list unchanged |
| TrackingList.InsertPosition | mongotron/ChangeTrackingList.py:52-55 | `insert`'s index is clamped: negative counts from the end, and out of range goes to the nearer end |
| TrackingList.InsertAt | mongotron/ChangeTrackingList.py:52-55 | inserting at a position shifts the tail right and adds exactly that element |
| TrackingList.Insert | mongotron/ChangeTrackingList.py:52-55 | `insert` notifies and places the element at the clamped index, keeping the rest in order |
| TrackingList.Pop | mongotron/ChangeTrackingList.py:57-59 | `pop` notifies even when it then raises IndexError on an empty list or bad index; otherwise it returns the removed element and shortens the list by one |
| TrackingList.FirstIndex | mongotron/ChangeTrackingList.py:61-63 | it finds the first occurrence of a value |
| TrackingList.Remove | mongotron/ChangeTrackingList.py:61-63 | `remove` notifies, then deletes the first equal element; an absent value gives ValueError with the list unchanged |
| TrackingList.Reversed | mongotron/ChangeTrackingList.py:65-67 | reversal mirrors positions |
| TrackingList.Reverse | mongotron/ChangeTrackingList.py:65-67 | `reverse` notifies and mirrors the order, keeping the length |
| TrackingList.ReversedPermutes | mongotron/ChangeTrackingList.py:65-67 | reversal keeps the multiset of elements |
| TrackingList.ReverseTwice | mongotron/ChangeTrackingList.py:65-67 | reversing twice gives back the list |
| TrackingList.InsertOrdered | mongotron/ChangeTrackingList.py:69-71 | the insertion step of the sort adds exactly one element |
| TrackingList.Sorted | mongotron/ChangeTrackingList.py:69-71 | sorting keeps the length and the multiset of elements |
| TrackingList.InsertOrderedKeepsOrder | mongotron/ChangeTrackingList.py:69-71 | inserting into an ordered list under a total order keeps it ordered |
| TrackingList.SortedIsOrdered | mongotron/ChangeTrackingList.py:69-71 | under a total comparison, the sorted list is ordered |
| TrackingList.Sort | mongotron/ChangeTrackingList.py:69-71 | `sort` notifies, keeps the length and multiset of elements, orders them under a total comparison, and is stable: under a transitive comparison, the elements tied with any value keep their relative order |
| TrackingList.SortedIsStable | mongotron/ChangeTrackingList.py:69-71 | under a transitive comparison, sorting keeps the subsequence of elements tied with any given value, so equal elements stay in their original order |
| TrackingList.Apply | mongotron/ChangeTrackingList.py:21-71 | every mutator notifies exactly as `_mark_as_changed` does and keeps the owner and name |
| TrackingList.ReplayNotices | mongotron/ChangeTrackingList.py:21-75 | any sequence of mutations sends exactly one notice per call when the owner has the hook, and none otherwise; the i-th notice carries the list's name and its contents just before the i-th call |
| TrackingList.FieldList | mongotron/field_types.py:123-129 | a list or set field reads as a tracked list owned by the document and named after the field, holding the field's read-back items; it fails exactly when the read fails |
| TrackingList.FieldListChangesNothing | mongotron/ChangeTrackingList.py:73-75 | a Document has no `_mark_as_changed`, so no mutation of a list or set field's list sends a notice |
| TrackingDict.Track | mongotron/ChangeTrackingDict.py:12-15 | a tracked dict needs an owner: without one, TypeError |
| TrackingDict.SetItem | mongotron/ChangeTrackingDict.py:17-19 | `d[k] = v` notifies first, then stores `v` under `k` and keeps every other entry; an unhashable key gives TypeError |
| TrackingDict.DelItem | mongotron/ChangeTrackingDict.py:25-27 | `del d[k]` notifies first, even when KeyError follows; it removes exactly `k` |
| TrackingDict.Clear | mongotron/ChangeTrackingDict.py:42-44 | `clear` notifies and empties the dict |
| TrackingDict.Pop | mongotron/ChangeTrackingDict.py:46-48 | `pop` notifies, then removes a present key and returns its value; an absent key gives the default or KeyError, with the dict unchanged; on an empty dict any key, even an unhashable one, gives the default or KeyError |
| TrackingDict.PopItem | mongotron/ChangeTrackingDict.py:50-52 | `popitem` notifies, then removes and returns one entry; an empty dict gives KeyError |
| TrackingDict.Update | mongotron/ChangeTrackingDict.py:54-56 | `update` notifies; the result has the keys of both, and the argument's values win |
| TrackingDict.SetThenDelete | mongotron/ChangeTrackingDict.py:17-27 | deleting a key just set leaves the dict without that key, after two notices |
| TrackingDict.PopIsDeleteReturningValue | mongotron/ChangeTrackingDict.py:46-48 | popping a present key does to the entries what `del` does, and returns the value |
| TrackingDict.PopItemShrinks | mongotron/ChangeTrackingDict.py:50-52 | each successful `popitem` removes exactly one entry |
| TrackingSet.SetAdd | mongotron/ChangeTrackingSet.py:26-28 | `add` puts a hashable element in and leaves the others; an unhashable one gives TypeError |
| TrackingSet.SetDiscard | mongotron/ChangeTrackingSet.py:26-28 | `discard` takes a hashable element out and leaves the others |
| TrackingSet.SetRemove | mongotron/ChangeTrackingSet.py:26-28 | `remove` succeeds exactly for a present hashable element and takes it out; otherwise KeyError or TypeError with the set unchanged |
| TrackingSet.SetPop | mongotron/ChangeTrackingSet.py:25 | `pop` removes and returns a member; an empty set gives KeyError |
| TrackingSet.SetClear | mongotron/ChangeTrackingSet.py:25 | `clear` empties the set |
| TrackingSet.AddEach | mongotron/ChangeTrackingSet.py:26-28 | adding items one by one succeeds exactly when all are hashable, and then gives the union; it stops at the first unhashable one, keeping what was added |
| TrackingSet.DiscardEach | mongotron/ChangeTrackingSet.py:26-28 | removing items one by one succeeds exactly when all are hashable, and then gives the difference |
| TrackingSet.SetUpdate | mongotron/ChangeTrackingSet.py:26-28 | `update` gives the union with the argument's members or iteration; it only grows the set |
| TrackingSet.SetDifferenceUpdate | mongotron/ChangeTrackingSet.py:26-28 | `difference_update` gives the difference; it only shrinks the set |
| TrackingSet.Elements | mongotron/ChangeTrackingSet.py:26-28 | the set built from an iteration holds exactly its items |
| TrackingSet.SetIntersectionUpdate | mongotron/ChangeTrackingSet.py:26-28 | `intersection_update` gives the intersection, and leaves the set alone when it raises |
| TrackingSet.SetSymmetricDifferenceUpdate | mongotron/ChangeTrackingSet.py:26-28 | `symmetric_difference_update` keeps exactly the members in one side but not both |
| TrackingSet.SetInPlace | mongotron/ChangeTrackingSet.py:26 | `&=`, `\|=`, `-=`, `^=` with a set give the intersection, union, difference, symmetric difference and return the set; other operands are declined |
| TrackingSet.StoreBack | mongotron/ChangeTrackingSet.py:20-23 | `_set` stores the collapsed contents under the field's name through `set`, changing only that key and marking it dirty; a raising collapse leaves the document alone |
| TrackingSet.Call | mongotron/ChangeTrackingSet.py:30-53 | a wrapped mutator runs the set operation first; if it raises, the document is untouched and the error propagates; otherwise `_set` runs and the result is the operation's own |
| TrackingSet.SetFieldStoresList | mongotron/ChangeTrackingSet.py:20-23 | with a set field, every successful mutation stores the collapsed list of the new contents and marks the field dirty |
| TrackingSet.DeclinedOperatorStillStores | mongotron/ChangeTrackingSet.py:43-46 | an in-place operator with a non-set operand still runs `_set` (the field turns dirty) before the TypeError |
| TrackingSet.InPlaceMatchesMethods | mongotron/ChangeTrackingSet.py:26-28 | with a set operand, each in-place operator changes the contents as its named method does |
| TrackingSet.AddThenRemove | mongotron/ChangeTrackingSet.py:26-28 | adding an absent element and then removing it gives back the set |

## Left out

- The store and driver layer: `_dbcollection`, `find`, `find_one`, `get_by_id` and `update`. `save` and `delete` take the store as parameters (`Store`). The hooks are parameters too (`Hooks`).
- Cursor, Collection, Database, ConnectionManager and SequenceGenerator: pymongo subclasses and server-side state.
- wrapped_types.py: nothing imports it.
- DocumentField: its constructor raises for every argument (an unbound `default`), so it appears only as the parse error it produces.
- `make_collection_name`, `to_json_dict`, `from_json_dict`, `__repr__`, `__contains__`, `__eq__`, `__hash__`, `embedded` and `on_load`: they do not take part in change tracking.
- The root Document class body is modelled only through its `_id` declaration and its member names (`DocumentMeta.RootBody`); the other attributes it sets are the empty dicts and lists a class body without declarations has.
- Access.Assign: does not model the `_Document__` branch of `__setattr__`, which writes name-mangled private storage rather than a field.
- Access.Attribute: a member that is not a field, an object attribute such as `__class__` or an instance attribute such as `_Document__attributes` is found by name only; its value (a bound method, a property's result, the class object) is not modelled.
- FieldLemmas.ParseDenotation: a token is None, a plain list, a set or frozenset (of any subclass), a class, or some other object (`TOther`). An object whose own `__eq__` makes it equal to `set()` or to a scalar class is not represented. An instance of a list subclass counts as `TOther`, and the source raises TypeError for it too.
- DocumentMeta.RootDocumentAsWrittenFails: the model's `parse` assumes `Document` can be imported; inside the root class statement itself, `DocumentField.parse` would import the half-initialised module and raise ImportError, which is not modelled. The TypeError for a descriptor-instance token is stated for subclasses in `DocumentMeta.DescriptorTokenInSubclass`.
- Access.IdOf: reads `_id` only as a field; a class whose `_id` is some other member is not modelled, and every class derived from the root Document has the field (`DocumentMeta.EveryDocumentHasId`).
- Weak proxies, pickling hooks, and the dict wrapper's `__delete__`/`__delattr__`: Python object machinery.
- List slices: the list wrapper is modelled for integer indices only.
- Python's cross-type equality (`1 == 1.0 == True`, `str` vs `unicode`): values use structural equality.
- Sorting: the comparison is a parameter, and `sort`'s `cmp`, `key` and `reverse` arguments are not modelled.
- The dict wrapper's `update` with a non-dict argument or keyword arguments.
- ObjectId generation: `identity` and `load_dict` take the next ObjectId as a parameter.
- `str()` of a value that is not a string: the text it produces is left abstract (`FieldTypes.Rendering`).
- Float arithmetic: floats are reals, and only `-abs` is applied to them.
- Dict values have string keys only (`Values.Value`); `map_search_dict` and `document_as_dict` accept any key, but the model's documents and queries never hold another.
- FieldTypes.EncodeDecimal: follows a wide (UCS-4) build of Python 2.7; a narrow build stores supplementary characters as surrogate pairs, which never encode, so the digits beyond the Basic Multilingual Plane raise there.
- A callable default: `make` calls it as a value-producing thunk; deep copies are implicit because values are immutable.
- User overrides of `validate` or `identity` in subclasses: the model uses the base class's.
- `if ops:` in `save` is always true, because `operations` always has a `$set` entry, so the store call is never skipped.
- TrackingSet.StoreBack: requires a named descriptor (the metaclass always names one).
- TrackingSet.Call: requires a named descriptor, for the same reason.
- Access.Assign: requires every declared descriptor to be named after its field, which the metaclass guarantees.
- SaveProtocol.SaveWithShape: states the protocol over any steps; the lemmas that fix the steps to the model's only require the relevant step to agree, because instantiating all four at once is too heavy for the solver.

## Findings

| source | as written | input that shows it | evidently intended | confidence | as-written member | corrected member |
|---|---|---|---|---|---|---|
| mongotron/Document.py:97 | `make_field_types` passes `write_once=...` to `parse`, whose constructors accept only `name`, `required`, `default` | any class with one field, e.g. `structure = {'age': int}` | construct descriptors without `write_once` | not executed | DocumentMeta.DefineClassAsWrittenFails | DocumentMeta.DefineClassCharacterised |
| mongotron/Document.py:95 | the default is passed as `default_values.get(name)`, which is None when undeclared, instead of leaving it undefined | `structure = {'age': int}` with no default: `IntField` validates default None and raises TypeError | an undeclared default falls back to the descriptor's own default | not executed | DocumentMeta.UndeclaredDefaultAsWrittenRejected | DocumentMeta.UndeclaredDefaultTakesClassDefault |
| mongotron/Document.py:53-54 | `inverse_field_map` is built as a copy of `field_map`, so `short_to_long` (lines 207-211) looks short names up among long names | `field_map = {'name': 'n'}`: `short_to_long('n')` returns `'n'` | the inverse map from short names to long names | not executed | KeyMapping.ShortToLongAsWrittenNotInverse | KeyMapping.ShortToLongInverse |
| mongotron/Document.py:110-114 | the root class body builds its `_id` descriptor with `doc=` and `readonly=`, which `Field.__init__` does not accept; had it accepted them, the descriptor instance left in `structure` would reach `DocumentField.parse`, whose import of the half-initialised module fails | importing the module: `ObjectIdField(name='_id', doc=..., readonly=True)` raises TypeError | declare `_id` as the ObjectId type, so that every document has an optional ObjectId `_id` field | not executed | DocumentMeta.RootDocumentAsWrittenFails | DocumentMeta.EveryDocumentHasId |
