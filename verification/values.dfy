/** The Python values that documents hold, with the pieces of Python's object
    model the core relies on: `isinstance`, truthiness, hashability and
    iteration. */
module Values {
  import opened Errors

  /** The Python classes that appear in schemas and as the classes of values. */
  datatype ClassTag =
    | BoolClass
    | IntClass
    | LongClass
    | FloatClass
    | BytesClass      // `str` in Python 2, aliased as `bytes`
    | UnicodeClass
    | ObjectIdClass   // bson.objectid.ObjectId
    | NoneTypeClass   // type(None)
    | ListClass
    | SetClass
    | DictClass
    | DocumentClass   // a subclass of Document
    | OtherClass      // any other class

  /** A Python value. Library values (ObjectId, bson.Binary, the long produced
      by `long()`) are opaque constructors; floats carry a real number because
      only their sign and magnitude are ever used. */
  datatype Value =
    | VNone
    | VBool(b: bool)
    | VInt(i: int)
    | VLong(i: int)
    | VFloat(r: real)
    | VStr(s: string)
    | VUnicode(s: string)
    | VBinary(s: string)
    | VObjectId(id: nat)
    | VList(items: seq<Value>)
    | VSet(elems: set<Value>)
    | VDict(entries: map<string, Value>)

  /** The classes `v` is an instance of: `bool` derives from `int` and
      `bson.Binary` derives from `str`. */
  function ClassesOf(v: Value): (r: set<ClassTag>)
    ensures |r| >= 1
  {
    match v
    case VNone => {NoneTypeClass}
    case VBool(_) => {BoolClass, IntClass}
    case VInt(_) => {IntClass}
    case VLong(_) => {LongClass}
    case VFloat(_) => {FloatClass}
    case VStr(_) => {BytesClass}
    case VUnicode(_) => {UnicodeClass}
    case VBinary(_) => {BytesClass}
    case VObjectId(_) => {ObjectIdClass}
    case VList(_) => {ListClass}
    case VSet(_) => {SetClass}
    case VDict(_) => {DictClass}
  }

  /** `isinstance(v, classes)` for a tuple of classes. */
  predicate IsInstance(v: Value, classes: set<ClassTag>) {
    ClassesOf(v) * classes != {}
  }

  /** Python truthiness (`if v:`, `v or w`). ObjectIds are always true. */
  predicate Truthy(v: Value) {
    match v
    case VNone => false
    case VBool(b) => b
    case VInt(i) => i != 0
    case VLong(i) => i != 0
    case VFloat(r) => r != 0.0
    case VStr(s) => s != ""
    case VUnicode(s) => s != ""
    case VBinary(s) => s != ""
    case VObjectId(_) => true
    case VList(xs) => xs != []
    case VSet(e) => e != {}
    case VDict(m) => m != map[]
  }

  /** Whether `v` may be put in a set or used as a dict key: mutable
      containers may not. */
  predicate Hashable(v: Value) {
    !(v.VList? || v.VSet? || v.VDict?)
  }

  /** Every set nested anywhere in `v` holds only hashable elements, as every
      Python set does. */
  ghost predicate WellFormed(v: Value)
    decreases v
  {
    match v
    case VList(xs) => forall i :: 0 <= i < |xs| ==> WellFormed(xs[i])
    case VSet(e) => forall x :: x in e ==> Hashable(x)
    case VDict(m) => forall k :: k in m ==> WellFormed(m[k])
    case _ => true
  }

  /** The elements of `s` in some fixed order: Python's set and dict iteration
      order is unspecified, so the model picks one and never relies on which. */
  ghost function Enumerate<T(!new)>(s: set<T>): (r: seq<T>)
    ensures |r| == |s|
    ensures forall x :: x in s <==> x in r
    ensures forall i, j :: 0 <= i < j < |r| ==> r[i] != r[j]
  {
    if s == {} then []
    else
      var x :| x in s;
      var rest := Enumerate(s - {x});
      [x] + rest
  }

  /** The one-character strings of `s`, as iterating a string yields them. */
  function Chars(s: string, text: bool): (r: seq<Value>)
    ensures |r| == |s|
  {
    seq(|s|, i requires 0 <= i < |s| => if text then VUnicode([s[i]]) else VStr([s[i]]))
  }

  /** What `for x in v` visits: list items in order, set elements and dict
      keys in iteration order, the characters of a string; anything else is
      not iterable. */
  ghost function Iterate(v: Value): (r: Result<seq<Value>>)
    ensures v.VList? ==> r == Ok(v.items)
    ensures v.VSet? ==> r.Ok? && |r.value| == |v.elems| && forall x :: x in v.elems <==> x in r.value
    ensures r.Ok? <==> (v.VList? || v.VSet? || v.VDict? || v.VStr? || v.VUnicode? || v.VBinary?)
  {
    match v
    case VList(xs) => Ok(xs)
    case VSet(e) => Ok(Enumerate(e))
    case VDict(m) =>
      var ks := Enumerate(m.Keys);
      Ok(seq(|ks|, i requires 0 <= i < |ks| => VStr(ks[i])))
    case VStr(s) => Ok(Chars(s, false))
    case VBinary(s) => Ok(Chars(s, false))
    case VUnicode(s) => Ok(Chars(s, true))
    case _ => Err(TypeError)
  }
}
