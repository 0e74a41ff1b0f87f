/** Key renaming between canonical ("long") field names and the shortened
    names stored in the database (Document.long_to_short, short_to_long,
    map_search_dict, map_search_list, document_as_dict). */
module KeyMapping {
  import opened Values

  /** A field map: canonical name to shortened name. */
  type FieldMap = map<string, string>

  /** `long_to_short`: the shortened name, or the key itself when the field
      map has none. */
  function LongToShort(fm: FieldMap, k: string): string {
    if k in fm then fm[k] else k
  }

  /** The dict built by storing each `vs[i]` under the short name of
      `ks[i]`, in order: when two keys share a short name, the later one
      wins. This is the loop of every renaming comprehension in Document. */
  function RenamePairs<V>(fm: FieldMap, ks: seq<string>, vs: seq<V>): map<string, V>
    requires |ks| == |vs|
  {
    if ks == [] then map[]
    else
      var n := |ks| - 1;
      RenamePairs(fm, ks[..n], vs[..n])[LongToShort(fm, ks[n]) := vs[n]]
  }

  /** The short names of a set of keys. */
  function ShortNames(fm: FieldMap, ks: set<string>): set<string> {
    set k | k in ks :: LongToShort(fm, k)
  }

  /** No two keys of `ks` share a short name. */
  predicate ShortNamesDistinct(fm: FieldMap, ks: set<string>) {
    forall a, b :: a in ks && b in ks && a != b ==> LongToShort(fm, a) != LongToShort(fm, b)
  }

  /** The renamed dict has exactly the short names of the visited keys. */
  lemma {:induction false} RenamePairsDomain<V>(fm: FieldMap, ks: seq<string>, vs: seq<V>)
    requires |ks| == |vs|
    ensures RenamePairs(fm, ks, vs).Keys == set i | 0 <= i < |ks| :: LongToShort(fm, ks[i])
  {
    if ks != [] {
      var n := |ks| - 1;
      var init := ks[..n];
      RenamePairsDomain(fm, init, vs[..n]);
      assert forall i :: 0 <= i < n ==> init[i] == ks[i];
      assert (set i | 0 <= i < |ks| :: LongToShort(fm, ks[i]))
          == (set i | 0 <= i < n :: LongToShort(fm, init[i])) + {LongToShort(fm, ks[n])};
    }
  }

  /** Each renamed entry holds the value of the LAST visited key with that
      short name. */
  lemma {:induction false} RenamePairsLastWins<V>(fm: FieldMap, ks: seq<string>, vs: seq<V>, j: nat)
    requires |ks| == |vs| && j < |ks|
    requires forall i :: j < i < |ks| ==> LongToShort(fm, ks[i]) != LongToShort(fm, ks[j])
    ensures LongToShort(fm, ks[j]) in RenamePairs(fm, ks, vs)
    ensures RenamePairs(fm, ks, vs)[LongToShort(fm, ks[j])] == vs[j]
  {
    var n := |ks| - 1;
    if j < n {
      var init := ks[..n];
      assert forall i :: 0 <= i < n ==> init[i] == ks[i];
      RenamePairsLastWins(fm, init, vs[..n], j);
    }
  }

  /** Every entry of the renamed dict is the value of some visited key with
      that short name. */
  lemma RenamePairsEntry<V>(fm: FieldMap, ks: seq<string>, vs: seq<V>, s: string) returns (j: nat)
    requires |ks| == |vs| && s in RenamePairs(fm, ks, vs)
    ensures j < |ks| && LongToShort(fm, ks[j]) == s && RenamePairs(fm, ks, vs)[s] == vs[j]
  {
    RenamePairsDomain(fm, ks, vs);
    j := LastWithShortName(fm, ks, s);
    RenamePairsLastWins(fm, ks, vs, j);
  }

  /** The values of `m` in the order of `ks`. */
  function ValuesAt<V>(ks: seq<string>, m: map<string, V>): (vs: seq<V>)
    requires forall i :: 0 <= i < |ks| ==> ks[i] in m
    ensures |vs| == |ks|
  {
    seq(|ks|, i requires 0 <= i < |ks| => m[ks[i]])
  }

  /** `{long_to_short(k): m[k] for k in m}`, in dict iteration order. */
  ghost function Rename<V>(fm: FieldMap, m: map<string, V>): map<string, V> {
    var ks := Enumerate(m.Keys);
    RenamePairs(fm, ks, ValuesAt(ks, m))
  }

  /** An enumeration of a set of keys has exactly their short names. */
  lemma EnumeratedShortNames(fm: FieldMap, ks: seq<string>, keys: set<string>)
    requires forall k :: k in keys <==> k in ks
    ensures (set i | 0 <= i < |ks| :: LongToShort(fm, ks[i])) == ShortNames(fm, keys)
  {
    var byIndex := set i | 0 <= i < |ks| :: LongToShort(fm, ks[i]);
    var byKey := ShortNames(fm, keys);
    forall s | s in byKey ensures s in byIndex {
      var k :| k in keys && LongToShort(fm, k) == s;
      var i :| 0 <= i < |ks| && ks[i] == k;
    }
    forall s | s in byIndex ensures s in byKey {
      var i :| 0 <= i < |ks| && LongToShort(fm, ks[i]) == s;
      assert ks[i] in keys;
    }
  }

  /** Renaming a whole dict yields exactly the short names of its keys. */
  lemma RenameDomain<V>(fm: FieldMap, m: map<string, V>)
    ensures Rename(fm, m).Keys == ShortNames(fm, m.Keys)
  {
    var ks := Enumerate(m.Keys);
    RenamePairsDomain(fm, ks, ValuesAt(ks, m));
    EnumeratedShortNames(fm, ks, m.Keys);
  }

  /** Every entry of a renamed dict holds the value of some key with that
      short name. */
  lemma RenameEntry<V>(fm: FieldMap, m: map<string, V>, s: string) returns (k: string)
    requires s in Rename(fm, m)
    ensures k in m && LongToShort(fm, k) == s && Rename(fm, m)[s] == m[k]
  {
    var ks := Enumerate(m.Keys);
    var j := RenamePairsEntry(fm, ks, ValuesAt(ks, m), s);
    k := ks[j];
  }

  /** When no two keys of a dict share a short name, renaming it puts each
      key's value under its short name. */
  lemma RenameExact<V>(fm: FieldMap, m: map<string, V>, k: string)
    requires ShortNamesDistinct(fm, m.Keys) && k in m
    ensures LongToShort(fm, k) in Rename(fm, m) && Rename(fm, m)[LongToShort(fm, k)] == m[k]
  {
    var ks := Enumerate(m.Keys);
    var j :| 0 <= j < |ks| && ks[j] == k;
    forall i | j < i < |ks| ensures LongToShort(fm, ks[i]) != LongToShort(fm, ks[j]) {
      assert ks[i] in m.Keys && ks[i] != ks[j];
    }
    RenamePairsLastWins(fm, ks, ValuesAt(ks, m), j);
  }

  /** With an empty field map renaming changes nothing. */
  lemma RenameEmptyMap<V>(m: map<string, V>)
    ensures Rename(map[], m) == m
  {
    RenameDomain(map[], m);
    assert ShortNames(map[], m.Keys) == m.Keys;
    forall k | k in m ensures Rename(map[], m)[k] == m[k] {
      RenameExact(map[], m, k);
    }
  }

  /** `document_as_dict`: the attributes under their short names. */
  ghost function DocumentAsDict(fm: FieldMap, attributes: map<string, Value>): map<string, Value> {
    Rename(fm, attributes)
  }

  /** `map_search_dict` / `map_search_list` on one value: a dict has every
      value mapped and stored under its key's short name, in iteration
      order; a list has every element mapped; anything else is left as it
      is. */
  ghost function MapSearchValue(fm: FieldMap, v: Value): Value
    decreases v
  {
    match v
    case VDict(m) =>
      var ks := Enumerate(m.Keys);
      VDict(RenamePairs(fm, ks, seq(|ks|, i requires 0 <= i < |ks| => MapSearchValue(fm, m[ks[i]]))))
    case VList(xs) => VList(seq(|xs|, i requires 0 <= i < |xs| => MapSearchValue(fm, xs[i])))
    case _ => v
  }

  /** `map_search_dict(search_dict)`. */
  ghost function MapSearchDict(fm: FieldMap, m: map<string, Value>): map<string, Value> {
    MapSearchValue(fm, VDict(m)).entries
  }

  /** `map_search_list(search_list)`. */
  ghost function MapSearchList(fm: FieldMap, xs: seq<Value>): seq<Value> {
    MapSearchValue(fm, VList(xs)).items
  }

  /** `w` is `v` with every dict key at every depth renamed: dicts keep
      exactly the short names of their keys, each holding a renamed value of
      some key with that short name; lists keep their length and order; every
      other value is unchanged. */
  ghost predicate RenamedDeep(fm: FieldMap, v: Value, w: Value)
    decreases v
  {
    match v
    case VDict(m) =>
      w.VDict? && w.entries.Keys == ShortNames(fm, m.Keys)
      && forall s :: s in w.entries ==>
           exists k :: k in m && LongToShort(fm, k) == s && RenamedDeep(fm, m[k], w.entries[s])
    case VList(xs) =>
      w.VList? && |w.items| == |xs| && forall i :: 0 <= i < |xs| ==> RenamedDeep(fm, xs[i], w.items[i])
    case _ => w == v
  }

  /** The search mappers rename every key at every depth. */
  lemma {:induction false} MapSearchRenames(fm: FieldMap, v: Value)
    ensures RenamedDeep(fm, v, MapSearchValue(fm, v))
    decreases v, 1
  {
    match v
    case VDict(m) => MapSearchRenamesDict(fm, v);
    case VList(xs) =>
      forall i | 0 <= i < |xs| ensures RenamedDeep(fm, xs[i], MapSearchValue(fm, v).items[i]) {
        MapSearchRenames(fm, xs[i]);
      }
    case _ =>
  }

  lemma {:induction false} MapSearchRenamesDict(fm: FieldMap, v: Value)
    requires v.VDict?
    ensures RenamedDeep(fm, v, MapSearchValue(fm, v))
    decreases v, 0
  {
    var m := v.entries;
    var ks := Enumerate(m.Keys);
    var vs := seq(|ks|, i requires 0 <= i < |ks| => MapSearchValue(fm, m[ks[i]]));
    var w := RenamePairs(fm, ks, vs);
    assert MapSearchValue(fm, v) == VDict(w);
    RenamePairsDomain(fm, ks, vs);
    EnumeratedShortNames(fm, ks, m.Keys);
    forall s | s in w
      ensures exists k :: k in m && LongToShort(fm, k) == s && RenamedDeep(fm, m[k], w[s])
    {
      var j := RenamePairsEntry(fm, ks, vs, s);
      MapSearchRenames(fm, m[ks[j]]);
    }
  }

  /** The last index of `ks` whose short name is `s`. */
  lemma LastWithShortName(fm: FieldMap, ks: seq<string>, s: string) returns (j: nat)
    requires s in (set i | 0 <= i < |ks| :: LongToShort(fm, ks[i]))
    ensures j < |ks| && LongToShort(fm, ks[j]) == s
    ensures forall i :: j < i < |ks| ==> LongToShort(fm, ks[i]) != s
  {
    j := |ks| - 1;
    while LongToShort(fm, ks[j]) != s
      invariant 0 <= j < |ks|
      invariant forall i :: j < i < |ks| ==> LongToShort(fm, ks[i]) != s
      decreases j
    {
      if j == 0 {
        assert false;
      }
      j := j - 1;
    }
  }

  /** With an empty field map the search mappers return their input. */
  lemma {:induction false} MapSearchEmptyMap(v: Value)
    ensures MapSearchValue(map[], v) == v
    decreases v
  {
    match v
    case VDict(m) =>
      var ks := Enumerate(m.Keys);
      var vs := seq(|ks|, i requires 0 <= i < |ks| => MapSearchValue(map[], m[ks[i]]));
      forall i | 0 <= i < |ks| ensures vs[i] == m[ks[i]] {
        MapSearchEmptyMap(m[ks[i]]);
      }
      assert vs == ValuesAt(ks, m);
      RenameEmptyMap(m);
    case VList(xs) =>
      forall i | 0 <= i < |xs| ensures MapSearchValue(map[], xs[i]) == xs[i] {
        MapSearchEmptyMap(xs[i]);
      }
      assert MapSearchValue(map[], v).items == xs;
    case _ =>
  }

  /** `short_to_long` as written: it looks the key up in
      `inverse_field_map`, which the metaclass builds as a plain copy of
      `field_map`, so it maps long names to short ones. */
  function ShortToLongAsWritten(fm: FieldMap, s: string): string {
    var inverseAsWritten := map k | k in fm :: fm[k];
    if s in inverseAsWritten then inverseAsWritten[s] else s
  }

  /** `short_to_long` as written does not undo `long_to_short`: with the
      field map {"name": "n"}, the short name "n" comes back as "n". */
  lemma ShortToLongAsWrittenNotInverse()
    ensures var fm := map["name" := "n"];
      ShortToLongAsWritten(fm, LongToShort(fm, "name")) == "n" != "name"
  {
  }

  /** The inverse of a field map: every short name to a canonical name that
      maps to it. */
  ghost function Invert(fm: FieldMap): (inv: map<string, string>)
    ensures inv.Keys == fm.Values
    ensures forall s :: s in inv ==> inv[s] in fm && fm[inv[s]] == s
  {
    map s | s in fm.Values :: var k :| k in fm && fm[k] == s; k
  }

  /** `short_to_long` with the inverse of the field map. */
  ghost function ShortToLong(fm: FieldMap, s: string): string {
    var inv := Invert(fm);
    if s in inv then inv[s] else s
  }

  predicate Injective(fm: FieldMap) {
    forall a, b :: a in fm && b in fm && a != b ==> fm[a] != fm[b]
  }

  /** The corrected `short_to_long` undoes `long_to_short` for every mapped
      key of an injective field map, and for every unmapped key that is not
      itself some field's short name; and `long_to_short` always undoes it
      on short names. */
  lemma ShortToLongInverse(fm: FieldMap, k: string, s: string)
    ensures Injective(fm) && k in fm ==> ShortToLong(fm, LongToShort(fm, k)) == k
    ensures k !in fm && k !in fm.Values ==> ShortToLong(fm, LongToShort(fm, k)) == k
    ensures s in fm.Values ==> LongToShort(fm, ShortToLong(fm, s)) == s
  {
    if Injective(fm) && k in fm {
      assert fm[k] in fm.Values;
    }
  }
}
