/** Field descriptors (mongotron/field_types.py): the descriptor kinds, their
    validation, their conversions between the application form ("expanded")
    and the storage form ("collapsed"), their defaults, and the parser of the
    schema mini-language. */
module FieldTypes {
  import opened Errors
  import opened Values

  /** How a descriptor produces its default value. A plain default is
      deep-copied by every `make()`; a callable default replaces `make()`. */
  datatype Default =
    | Literal(v: Value)
    | Factory(produce: () -> Value)

  /** The descriptor classes, with their element descriptors. */
  datatype Kind =
    | AnyKind                              // Field: anything goes
    | ListOf(elem: Descriptor)             // ListField
    | SetOf(elem: Descriptor)              // SetField
    | FixedListOf(elems: seq<Descriptor>)  // FixedListField
    | BoolKind
    | BlobKind
    | UnicodeKind
    | IntKind
    | FloatKind
    | ObjectIdKind

  /** A descriptor instance. `name` is the document key it is installed
      under; element descriptors are unnamed. */
  datatype Descriptor = Descriptor(kind: Kind, name: Option<string>, required: bool, default: Default)

  /** The subclasses of ScalarField. */
  predicate IsScalar(k: Kind) {
    k.BoolKind? || k.BlobKind? || k.UnicodeKind? || k.IntKind? || k.FloatKind? || k.ObjectIdKind?
  }

  /** A scalar descriptor class's `TYPES` tuple. */
  function ScalarTypes(k: Kind): set<ClassTag>
    requires IsScalar(k)
  {
    match k
    case BoolKind => {BoolClass}
    case BlobKind => {BytesClass}
    case UnicodeKind => {UnicodeClass}
    case IntKind => {IntClass, LongClass}
    case FloatKind => {FloatClass}
    case ObjectIdKind => {ObjectIdClass, NoneTypeClass}
  }

  /** ScalarField.validate: the value must be an instance of one of `TYPES`.
      Because `bool` derives from `int`, an int field accepts booleans. */
  function ScalarCheck(k: Kind, v: Value): (r: Outcome)
    requires IsScalar(k)
    ensures r.Fail? ==> r.error == TypeError
    ensures r.Pass? <==> match k
      case BoolKind => v.VBool?
      case BlobKind => v.VStr? || v.VBinary?
      case UnicodeKind => v.VUnicode?
      case IntKind => v.VInt? || v.VLong? || v.VBool?
      case FloatKind => v.VFloat?
      case ObjectIdKind => v.VObjectId? || v.VNone?
  {
    if IsInstance(v, ScalarTypes(k)) then Pass else Fail(TypeError)
  }

  /** `validate(value)`. Containers check their own class first (ValueError),
      then every element in iteration order, stopping at the first failure. */
  ghost function Validate(f: Descriptor, v: Value): (r: Outcome)
    decreases f
  {
    match f.kind
    case AnyKind => Pass
    case ListOf(e) =>
      if !v.VList? then Fail(ValueError)
      else FirstFailure(seq(|v.items|, i requires 0 <= i < |v.items| => Validate(e, v.items[i])))
    case SetOf(e) =>
      if !v.VSet? then Fail(ValueError)
      else
        var xs := Enumerate(v.elems);
        FirstFailure(seq(|xs|, i requires 0 <= i < |xs| => Validate(e, xs[i])))
    case FixedListOf(es) =>
      if !v.VList? || |v.items| != |es| then Fail(ValueError)
      else FirstFailure(seq(|es|, i requires 0 <= i < |es| => Validate(es[i], v.items[i])))
    case _ => ScalarCheck(f.kind, v)
  }

  /** Python 2's `str()`. Byte strings pass through, `bson.Binary` unwraps,
      unicode is ASCII-encoded. The rendering of any other value is left
      abstract. */
  ghost function StrOf(v: Value): (r: Result<Value>)
    ensures r.Ok? ==> r.value.VStr?
    ensures (v.VStr? || v.VBinary?) ==> r == Ok(VStr(v.s))
  {
    match v
    case VStr(s) => Ok(VStr(s))
    case VBinary(s) => Ok(VStr(s))
    case VUnicode(s) =>
      if forall i :: 0 <= i < |s| ==> s[i] < 128 as char then Ok(VStr(s)) else Err(UnicodeEncodeError)
    case _ => Ok(VStr(Rendering(v)))
  }

  /** The text `str()` produces for a value that is not a string: some fixed
      string the model does not spell out. */
  ghost function Rendering(v: Value): string {
    var s: string :| true; s
  }

  /** Python's `long()` conversion: numbers keep their integer value (floats
      truncate toward zero), strings are parsed as decimal literals, and a
      unicode string is first encoded digit by digit (`EncodeDecimal`). */
  function ToLong(v: Value): (r: Result<Value>)
    ensures r.Ok? ==> r.value.VLong?
    ensures (v.VInt? || v.VLong?) ==> r == Ok(VLong(v.i))
    ensures r.Err? <==> match v
      case VStr(s) => ParseInteger(s).None?
      case VBinary(s) => ParseInteger(s).None?
      case VUnicode(s) => EncodeDecimal(s).Err? || ParseInteger(EncodeDecimal(s).value).None?
      case _ => !(v.VBool? || v.VInt? || v.VLong? || v.VFloat?)
    ensures r.Err? ==>
      r.error == (if v.VUnicode? && EncodeDecimal(v.s).Err? then UnicodeEncodeError
                  else if v.VStr? || v.VBinary? || v.VUnicode? then ValueError
                  else TypeError)
  {
    match v
    case VBool(b) => Ok(VLong(if b then 1 else 0))
    case VInt(i) => Ok(VLong(i))
    case VLong(i) => Ok(VLong(i))
    case VFloat(r) => Ok(VLong(if r >= 0.0 then r.Floor else -((-r).Floor)))
    case VStr(s) => LongOfText(s)
    case VBinary(s) => LongOfText(s)
    case VUnicode(s) =>
      (match EncodeDecimal(s)
       case Err(e) => Err(e)
       case Ok(t) => LongOfText(t))
    case _ => Err(TypeError)
  }

  function LongOfText(s: string): Result<Value> {
    match ParseInteger(s)
    case Some(n) => Ok(VLong(n))
    case None => Err(ValueError)
  }

  /** The number of runs of decimal digits (general category Nd) in
      version 5.2 of the Unicode database, the one Python 2.7 ships. Each
      run is ten consecutive code points with the values 0 to 9. */
  const DecimalRuns: nat := 41

  /** The first code point of the `k`-th run, in ascending order. */
  function DecimalZero(k: nat): int
    requires k < DecimalRuns
  {
    match k
    case 0 => 0x30
    case 1 => 0x660
    case 2 => 0x6F0
    case 3 => 0x7C0
    case 4 => 0x966
    case 5 => 0x9E6
    case 6 => 0xA66
    case 7 => 0xAE6
    case 8 => 0xB66
    case 9 => 0xBE6
    case 10 => 0xC66
    case 11 => 0xCE6
    case 12 => 0xD66
    case 13 => 0xE50
    case 14 => 0xED0
    case 15 => 0xF20
    case 16 => 0x1040
    case 17 => 0x1090
    case 18 => 0x17E0
    case 19 => 0x1810
    case 20 => 0x1946
    case 21 => 0x19D0
    case 22 => 0x1A80
    case 23 => 0x1A90
    case 24 => 0x1B50
    case 25 => 0x1BB0
    case 26 => 0x1C40
    case 27 => 0x1C50
    case 28 => 0xA620
    case 29 => 0xA8D0
    case 30 => 0xA900
    case 31 => 0xA9D0
    case 32 => 0xAA50
    case 33 => 0xABF0
    case 34 => 0xFF10
    case 35 => 0x104A0
    case 36 => 0x1D7CE
    case 37 => 0x1D7D8
    case 38 => 0x1D7E2
    case 39 => 0x1D7EC
    case _ => 0x1D7F6
  }

  /** The decimal value of `c` among the runs from the `k`-th on: the
      search stops at the first run that starts above `c`. */
  function DecimalFrom(k: nat, c: char): (r: Option<nat>)
    ensures r.Some? ==> r.value < 10 && exists j :: k <= j < DecimalRuns && c as int == DecimalZero(j) + r.value
    decreases DecimalRuns - k
  {
    if k >= DecimalRuns || c as int < DecimalZero(k) then None
    else if c as int < DecimalZero(k) + 10 then Some(c as int - DecimalZero(k))
    else DecimalFrom(k + 1, c)
  }

  /** `Py_UNICODE_TODECIMAL`: the value of a decimal digit character. */
  function DecimalValue(c: char): Option<nat> {
    DecimalFrom(0, c)
  }

  /** `Py_UNICODE_ISSPACE`: the ASCII whitespace characters (including the
      separators 0x1C to 0x1F) and the Unicode space and line separator
      characters. */
  predicate UnicodeSpace(c: char) {
    (9 <= c as int <= 13) || (0x1C <= c as int <= 0x20) || c as int == 0x85 || c as int == 0xA0
    || c as int == 0x1680 || c as int == 0x180E || (0x2000 <= c as int <= 0x200A)
    || c as int == 0x2028 || c as int == 0x2029 || c as int == 0x202F || c as int == 0x205F
    || c as int == 0x3000
  }

  /** Whether `PyUnicode_EncodeDecimal` can encode `c`: a space, a decimal
      digit, or a character between 1 and 255. */
  predicate DecimalEncodable(c: char) {
    UnicodeSpace(c) || DecimalValue(c).Some? || (0 < c as int < 256)
  }

  /** The byte `PyUnicode_EncodeDecimal` writes for an encodable character:
      a space for any space, the ASCII digit for any decimal digit, and the
      character itself otherwise. */
  function EncodeDecimalChar(c: char): char {
    if UnicodeSpace(c) then ' '
    else if DecimalValue(c).Some? then ('0' as int + DecimalValue(c).value) as char
    else c
  }

  /** `PyUnicode_EncodeDecimal`, which `long()` applies to a unicode string
      before parsing it: every character encoded on its own, and
      UnicodeEncodeError for the first one that cannot be. */
  function EncodeDecimal(s: string): (r: Result<string>)
    ensures r.Ok? <==> forall i :: 0 <= i < |s| ==> DecimalEncodable(s[i])
    ensures r.Err? ==> r.error == UnicodeEncodeError
    ensures r.Ok? ==> |r.value| == |s| && forall i :: 0 <= i < |s| ==> r.value[i] == EncodeDecimalChar(s[i])
  {
    if s == [] then Ok([])
    else if !DecimalEncodable(s[0]) then Err(UnicodeEncodeError)
    else
      match EncodeDecimal(s[1..])
      case Err(e) => Err(e)
      case Ok(t) => Ok([EncodeDecimalChar(s[0])] + t)
  }

  predicate IsSpace(c: char) {
    c == ' ' || c == '\t' || c == '\n' || c == '\r' || c == 11 as char || c == 12 as char
  }

  predicate IsDigit(c: char) {
    '0' <= c <= '9'
  }

  function TrimStart(s: string): (r: string)
    ensures |r| <= |s|
  {
    if s != [] && IsSpace(s[0]) then TrimStart(s[1..]) else s
  }

  function TrimEnd(s: string): (r: string)
    ensures |r| <= |s|
  {
    if s != [] && IsSpace(s[|s| - 1]) then TrimEnd(s[..|s| - 1]) else s
  }

  predicate AllDigits(s: string) {
    forall i :: 0 <= i < |s| ==> IsDigit(s[i])
  }

  function DigitsValue(s: string): nat
    requires AllDigits(s)
  {
    if s == [] then 0
    else
      assert IsDigit(s[|s| - 1]);
      10 * DigitsValue(s[..|s| - 1]) + (s[|s| - 1] as int - '0' as int)
  }

  /** Python 2's decimal literal syntax for `long()` (`PyLong_FromString`
      in base 10): surrounding whitespace, an optional sign, whitespace again,
      at least one digit, and an optional `L` suffix. */
  function ParseInteger(s: string): Option<int> {
    ParseSigned(TrimEnd(TrimStart(s)))
  }

  /** A literal without its outer whitespace: the sign, then whitespace
      skipped again before the digits. */
  function ParseSigned(t: string): Option<int> {
    if |t| > 0 && (t[0] == '-' || t[0] == '+') then
      match ParseDigits(TrimStart(t[1..]))
      case None => None
      case Some(n) => Some(if t[0] == '-' then -(n as int) else n)
    else ParseDigits(t)
  }

  /** At least one digit, then an optional `L` suffix. */
  function ParseDigits(u: string): Option<nat> {
    var digits := if |u| > 0 && (u[|u| - 1] == 'L' || u[|u| - 1] == 'l') then u[..|u| - 1] else u;
    if |digits| > 0 && AllDigits(digits) then Some(DigitsValue(digits)) else None
  }

  /** `collapse(value)`: the storage form. Scalars other than blobs and ints
      are stored as they are. ListField and SetField always map their
      element's `collapse` over the value: the guard comparing the element's
      bound `collapse` with the unbound `Field.collapse` never holds, so the
      identity shortcut is never taken. */
  ghost function Collapse(f: Descriptor, v: Value): (r: Result<Value>)
    decreases f
    ensures r.Ok? && (f.kind.ListOf? || f.kind.SetOf? || f.kind.FixedListOf?) ==> r.value.VList?
    ensures r.Ok? && f.kind.BlobKind? ==> r.value.VBinary?
    ensures r.Ok? && f.kind.IntKind? ==> r.value.VLong?
    ensures f.kind.ListOf? && v.VList? && r.Ok? ==> |r.value.items| == |v.items|
  {
    match f.kind
    case BlobKind => if v.VStr? || v.VBinary? then Ok(VBinary(v.s)) else Err(TypeError)
    case IntKind => ToLong(v)
    case ListOf(e) =>
      var xs :- Iterate(v);
      var ys :- Collect(seq(|xs|, i requires 0 <= i < |xs| => Collapse(e, xs[i])));
      Ok(VList(ys))
    case SetOf(e) =>
      var xs :- Iterate(v);
      var ys :- Collect(seq(|xs|, i requires 0 <= i < |xs| => Collapse(e, xs[i])));
      Ok(VList(ys))
    case FixedListOf(es) =>
      var xs :- Iterate(v);
      var n := if |xs| <= |es| then |xs| else |es|;
      var ys :- Collect(seq(n, i requires 0 <= i < n => Collapse(es[i], xs[i])));
      if |xs| > |es| then Err(IndexError) else Ok(VList(ys))
    case _ => Ok(v)
  }

  /** One element of SetField.expand: expanded, then inserted into the new set. */
  ghost function ExpandMember(e: Descriptor, x: Value): (r: Result<Value>)
    decreases e, 2
    ensures r.Ok? ==> Hashable(r.value)
  {
    var y :- Expand(e, x);
    if Hashable(y) then Ok(y) else Err(TypeError)
  }

  /** `expand(value)`: the application form of a stored value. Blobs go
      through `str()`; SetField builds a set from the expanded elements. */
  ghost function Expand(f: Descriptor, v: Value): (r: Result<Value>)
    decreases f, 1
    ensures r.Ok? && (f.kind.ListOf? || f.kind.FixedListOf?) ==> r.value.VList?
    ensures r.Ok? && f.kind.SetOf? ==> r.value.VSet?
    ensures r.Ok? && f.kind.BlobKind? ==> r.value.VStr?
    ensures f.kind.ListOf? && v.VList? && r.Ok? ==> |r.value.items| == |v.items|
  {
    match f.kind
    case BlobKind => StrOf(v)
    case ListOf(e) =>
      var xs :- Iterate(v);
      var ys :- Collect(seq(|xs|, i requires 0 <= i < |xs| => Expand(e, xs[i])));
      Ok(VList(ys))
    case SetOf(e) =>
      var xs :- Iterate(v);
      var ys :- Collect(seq(|xs|, i requires 0 <= i < |xs| => ExpandMember(e, xs[i])));
      Ok(VSet(set y | y in ys))
    case FixedListOf(es) =>
      var xs :- Iterate(v);
      var n := if |xs| <= |es| then |xs| else |es|;
      var ys :- Collect(seq(n, i requires 0 <= i < n => Expand(es[i], xs[i])));
      if |xs| > |es| then Err(IndexError) else Ok(VList(ys))
    case _ => Ok(v)
  }

  /** `make()`: the default value. */
  function Make(f: Descriptor): Value {
    match f.default
    case Literal(v) => v
    case Factory(p) => p()
  }

  /** The class's `DEFAULT_DEFAULT`; FixedListField's is the list of its
      element descriptors' defaults. */
  function DefaultDefault(k: Kind): Default {
    match k
    case AnyKind => Literal(VNone)
    case ListOf(_) => Literal(VList([]))
    case SetOf(_) => Literal(VSet({}))
    case FixedListOf(es) => Literal(VList(seq(|es|, i requires 0 <= i < |es| => Make(es[i]))))
    case BoolKind => Literal(VBool(false))
    case BlobKind => Literal(VStr(""))
    case UnicodeKind => Literal(VUnicode(""))
    case IntKind => Literal(VInt(0))
    case FloatKind => Literal(VFloat(0.0))
    case ObjectIdKind => Literal(VNone)
  }

  /** The `default` keyword: left out, or given. */
  datatype DefaultArg = Undefined | Given(d: Default)

  /** The keyword arguments of a descriptor constructor: the three that
      `Field.__init__` accepts, and the names of any others passed (such as
      `write_once`). */
  datatype FieldOptions = FieldOptions(name: Option<string>, required: bool, default: DefaultArg, unexpected: set<string>)

  const NoOptions := FieldOptions(None, false, Undefined, {})

  /** The descriptor `Field()` builds: accepts anything, defaults to None. */
  const AnyElement := Descriptor(AnyKind, None, false, Literal(VNone))

  /** A descriptor constructor. `Field.__init__` accepts only `name`,
      `required` and `default`; FixedListField's assertion passes its
      arguments to `isinstance` swapped, which raises for any non-empty
      element list; finally the default must pass `validate`. */
  ghost function Construct(k: Kind, opts: FieldOptions): (r: Result<Descriptor>)
    ensures r.Ok? ==> r.value.kind == k && r.value.name == opts.name && r.value.required == opts.required
    ensures r.Ok? ==> Validate(r.value, Make(r.value)).Pass?
    ensures r.Ok? ==> r.value.default == if opts.default.Undefined? then DefaultDefault(k) else opts.default.d
    ensures opts.unexpected != {} ==> r == Err(TypeError)
    ensures k.FixedListOf? && k.elems != [] ==> r == Err(TypeError)
  {
    if opts.unexpected != {} then Err(TypeError)
    else if k.FixedListOf? && k.elems != [] then Err(TypeError)
    else
      var d := if opts.default.Undefined? then DefaultDefault(k) else opts.default.d;
      var f := Descriptor(k, opts.name, opts.required, d);
      match Validate(f, Make(f))
      case Pass => Ok(f)
      case Fail(e) => Err(e)
  }

  /** A token of the schema mini-language. */
  datatype Token =
    | TNone                   // None: any value
    | TList(items: seq<Token>) // `type(obj) is list`
    // A set, a frozenset or an instance of a subclass of either; `plain`
    // when `type(obj) is set`.
    | TSet(members: set<Token>, plain: bool)
    | TClass(cls: ClassTag)   // a class object, such as `int` or a Document subclass
    | TOther                  // any other object: a number, a dict, a tuple, a list subclass's instance, a descriptor instance

  /** The descriptor classes, as listed in `TYPE_ORDER`. */
  datatype FieldClass =
    | Field | ListField | SetField | FixedListField | BoolField | BlobField
    | UnicodeField | IntField | FloatField | ObjectIdField | DocumentField

  /** The order in which `parse` tries the classes. */
  const TypeOrder: seq<FieldClass> :=
    [Field, ListField, SetField, FixedListField, BoolField, BlobField,
     UnicodeField, IntField, FloatField, ObjectIdField, DocumentField]

  predicate IsScalarClass(c: FieldClass) {
    c.BoolField? || c.BlobField? || c.UnicodeField? || c.IntField? || c.FloatField? || c.ObjectIdField?
  }

  function ScalarKindOf(c: FieldClass): (k: Kind)
    requires IsScalarClass(c)
    ensures IsScalar(k)
  {
    match c
    case BoolField => BoolKind
    case BlobField => BlobKind
    case UnicodeField => UnicodeKind
    case IntField => IntKind
    case FloatField => FloatKind
    case ObjectIdField => ObjectIdKind
  }

  /** `klass.parse(obj, **kwargs)`: `None` when the class does not recognise
      the token, otherwise the constructed descriptor or the exception raised
      on the way. */
  ghost function TryParse(c: FieldClass, t: Token, opts: FieldOptions): Option<Result<Descriptor>>
    decreases t, 1
  {
    match c
    case Field => if t.TNone? then Some(Construct(AnyKind, opts)) else None
    case ListField =>
      if t.TList? && |t.items| < 2 then
        if |t.items| == 0 then Some(Construct(ListOf(AnyElement), opts))
        else
          (match Parse(t.items[0], NoOptions)
           case Err(e) => Some(Err(e))
           case Ok(e) => Some(Construct(ListOf(e), opts)))
      // `obj == set()`: every empty set and frozenset compares equal.
      else if t.TSet? && t.members == {} then Some(Construct(ListOf(AnyElement), opts))
      else None
    case SetField =>
      if t.TSet? && t.plain && |t.members| < 2 then
        if |t.members| == 0 then Some(Construct(SetOf(AnyElement), opts))
        else Some(Err(TypeError))  // `obj[0]`: sets do not support indexing
      else if t.TSet? && t.members == {} then Some(Construct(SetOf(AnyElement), opts))
      else None
    case FixedListField =>
      if t.TList? && |t.items| > 1 then
        (match ParseItems(t, 0)
         case Err(e) => Some(Err(e))
         case Ok(es) => Some(Construct(FixedListOf(es), opts)))
      else None
    case DocumentField =>
      if t.TClass? then
        // The constructor reads its `default` local before assigning it.
        if t.cls == DocumentClass then Some(Err(UnboundLocalError)) else None
      else Some(Err(TypeError))  // `issubclass` of something that is not a class
    case _ =>
      if t.TClass? && t.cls in ScalarTypes(ScalarKindOf(c)) then Some(Construct(ScalarKindOf(c), opts))
      else None
  }

  /** `map(parse, obj)` over the items of a list token from index `i` on. */
  ghost function ParseItems(t: Token, i: nat): (r: Result<seq<Descriptor>>)
    requires t.TList? && i <= |t.items|
    decreases t, 0, |t.items| - i
    ensures r.Ok? ==> |r.value| == |t.items| - i
  {
    if i == |t.items| then Ok([])
    else
      var d :- Parse(t.items[i], NoOptions);
      var ds :- ParseItems(t, i + 1);
      Ok([d] + ds)
  }

  /** The loop of `parse` over the remaining classes of `order`. */
  ghost function ParseIn(order: seq<FieldClass>, t: Token, opts: FieldOptions): Result<Descriptor>
    decreases t, 2, |order|
  {
    if order == [] then Err(ValueError)
    else
      match TryParse(order[0], t, opts)
      case Some(r) => r
      case None => ParseIn(order[1..], t, opts)
  }

  /** `parse(obj, **kwargs)`: the first class of `TYPE_ORDER` that recognises
      the token builds the descriptor; ValueError when none does. */
  ghost function Parse(t: Token, opts: FieldOptions): Result<Descriptor>
    decreases t, 3
  {
    ParseIn(TypeOrder, t, opts)
  }
}
