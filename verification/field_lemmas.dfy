/** What the descriptors promise: the parser's precedence, and the round
    trips between the application form and the storage form. */
module FieldLemmas {
  import opened Errors
  import opened Values
  import opened FieldTypes

  /** The token's meaning by direct case analysis, independent of the
      parser's loop over `TYPE_ORDER`. */
  ghost function Denotation(t: Token, opts: FieldOptions): Result<Descriptor> {
    match t
    case TNone => Construct(AnyKind, opts)
    case TList(items) =>
      if |items| == 0 then Construct(ListOf(AnyElement), opts)
      else if |items| == 1 then
        (match Parse(items[0], NoOptions)
         case Err(e) => Err(e)
         case Ok(e) => Construct(ListOf(e), opts))
      else
        (match ParseItems(t, 0)
         case Err(e) => Err(e)
         case Ok(_) => Err(TypeError))
    // An empty set or frozenset is claimed by ListField, which precedes
    // SetField; any other reaches `obj[0]` or `issubclass`, both TypeError.
    case TSet(members, _) => if members == {} then Construct(ListOf(AnyElement), opts) else Err(TypeError)
    case TClass(c) =>
      (match c
       case BoolClass => Construct(BoolKind, opts)
       case BytesClass => Construct(BlobKind, opts)
       case UnicodeClass => Construct(UnicodeKind, opts)
       case IntClass => Construct(IntKind, opts)
       case LongClass => Construct(IntKind, opts)
       case FloatClass => Construct(FloatKind, opts)
       case ObjectIdClass => Construct(ObjectIdKind, opts)
       case NoneTypeClass => Construct(ObjectIdKind, opts)
       case DocumentClass => Err(UnboundLocalError)
       case _ => Err(ValueError))
    case TOther => Err(TypeError)
  }

  /** The parser's loop returns the result of the first class that recognises
      the token. */
  lemma {:induction false} ParseInFirstMatch(order: seq<FieldClass>, t: Token, opts: FieldOptions, k: nat)
    requires k < |order|
    requires forall j :: 0 <= j < k ==> TryParse(order[j], t, opts).None?
    requires TryParse(order[k], t, opts).Some?
    ensures ParseIn(order, t, opts) == TryParse(order[k], t, opts).value
    decreases k
  {
    if k > 0 {
      assert TryParse(order[0], t, opts).None?;
      assert forall j :: 0 <= j < k - 1 ==> order[1..][j] == order[j + 1];
      ParseInFirstMatch(order[1..], t, opts, k - 1);
    }
  }

  /** The parser's loop raises ValueError when no class recognises the token. */
  lemma {:induction false} ParseInNoMatch(order: seq<FieldClass>, t: Token, opts: FieldOptions)
    requires forall j :: 0 <= j < |order| ==> TryParse(order[j], t, opts).None?
    ensures ParseIn(order, t, opts) == Err(ValueError)
    decreases |order|
  {
    if order != [] {
      assert TryParse(order[0], t, opts).None?;
      assert forall j :: 0 <= j < |order| - 1 ==> order[1..][j] == order[j + 1];
      ParseInNoMatch(order[1..], t, opts);
    }
  }

  /** `parse` gives every token the meaning `Denotation` assigns it. In
      particular None is a plain Field, an empty list or empty set a list of
      anything, a one-element list a ListField, a longer list fails in
      FixedListField's constructor, a scalar class its ScalarField, an
      unknown class ValueError, and any other object TypeError. */
  lemma ParseDenotation(t: Token, opts: FieldOptions)
    ensures Parse(t, opts) == Denotation(t, opts)
  {
    match t
    case TNone => ParseInFirstMatch(TypeOrder, t, opts, 0);
    case TList(_) => ParseListToken(t, opts);
    case TSet(_, _) => ParseSetToken(t, opts);
    case TClass(_) => ParseClassToken(t, opts);
    case TOther => ParseInFirstMatch(TypeOrder, t, opts, 10);
  }

  lemma ParseListToken(t: Token, opts: FieldOptions)
    requires t.TList?
    ensures Parse(t, opts) == Denotation(t, opts)
  {
    var o := TypeOrder;
    assert TryParse(o[0], t, opts).None?;
    if |t.items| < 2 {
      ParseInFirstMatch(o, t, opts, 1);
    } else {
      assert TryParse(o[1], t, opts).None?;
      assert TryParse(o[2], t, opts).None?;
      ParseInFirstMatch(o, t, opts, 3);
    }
  }

  lemma ParseSetToken(t: Token, opts: FieldOptions)
    requires t.TSet?
    ensures Parse(t, opts) == Denotation(t, opts)
  {
    var o := TypeOrder;
    assert TryParse(o[0], t, opts).None?;
    if t.members == {} {
      ParseInFirstMatch(o, t, opts, 1);
    } else {
      assert TryParse(o[1], t, opts).None?;
      if t.plain && |t.members| < 2 {
        ParseInFirstMatch(o, t, opts, 2);
      } else {
        assert forall j :: 2 <= j < 10 ==> TryParse(o[j], t, opts).None?;
        ParseInFirstMatch(o, t, opts, 10);
      }
    }
  }

  /** `frozenset()`, like `set()`, compares equal to ListField's
      `EMPTY_VALUE`, so both declare a list of any values. */
  lemma EmptySetTokens(opts: FieldOptions)
    ensures Parse(TSet({}, false), opts) == Construct(ListOf(AnyElement), opts)
    ensures Parse(TSet({}, true), opts) == Construct(ListOf(AnyElement), opts)
  {
    ParseSetToken(TSet({}, false), opts);
    ParseSetToken(TSet({}, true), opts);
  }

  lemma ParseClassToken(t: Token, opts: FieldOptions)
    requires t.TClass?
    ensures Parse(t, opts) == Denotation(t, opts)
  {
    match t.cls
    case BoolClass => ParseScalarToken(t, opts, 4);
    case BytesClass => ParseScalarToken(t, opts, 5);
    case UnicodeClass => ParseScalarToken(t, opts, 6);
    case IntClass => ParseIntegerClass(t, opts);
    case LongClass => ParseIntegerClass(t, opts);
    case FloatClass => ParseScalarToken(t, opts, 8);
    case ObjectIdClass => ParseObjectIdClass(t, opts);
    case NoneTypeClass => ParseObjectIdClass(t, opts);
    case DocumentClass => ParseDocumentClass(t, opts);
    case _ => ParseUnclaimedClass(t, opts);
  }

  /** `int` and `long` are both claimed by IntField. */
  lemma ParseIntegerClass(t: Token, opts: FieldOptions)
    requires t.TClass? && (t.cls == IntClass || t.cls == LongClass)
    ensures Parse(t, opts) == Construct(IntKind, opts)
  {
    ParseScalarToken(t, opts, 7);
  }

  /** The ObjectId class and None's type are both claimed by ObjectIdField. */
  lemma ParseObjectIdClass(t: Token, opts: FieldOptions)
    requires t.TClass? && (t.cls == ObjectIdClass || t.cls == NoneTypeClass)
    ensures Parse(t, opts) == Construct(ObjectIdKind, opts)
  {
    ParseScalarToken(t, opts, 9);
  }

  /** A class token is claimed by the first scalar descriptor class whose
      `TYPES` hold it. */
  lemma ParseScalarToken(t: Token, opts: FieldOptions, k: nat)
    requires t.TClass? && 4 <= k <= 9
    requires forall j :: 4 <= j < k ==> t.cls !in ScalarTypes(ScalarKindOf(TypeOrder[j]))
    requires t.cls in ScalarTypes(ScalarKindOf(TypeOrder[k]))
    ensures Parse(t, opts) == Construct(ScalarKindOf(TypeOrder[k]), opts)
  {
    ClassSkips(t, opts, k);
    ParseInFirstMatch(TypeOrder, t, opts, k);
  }

  /** A Document subclass reaches DocumentField, whose constructor fails. */
  lemma ParseDocumentClass(t: Token, opts: FieldOptions)
    requires t == TClass(DocumentClass)
    ensures Parse(t, opts) == Err(UnboundLocalError)
  {
    ClassSkips(t, opts, 10);
    ParseInFirstMatch(TypeOrder, t, opts, 10);
  }

  /** A class no descriptor class claims: ValueError. */
  lemma ParseUnclaimedClass(t: Token, opts: FieldOptions)
    requires t.TClass? && t.cls in {ListClass, SetClass, DictClass, OtherClass}
    ensures Parse(t, opts) == Err(ValueError)
  {
    ClassSkips(t, opts, 10);
    assert TryParse(TypeOrder[10], t, opts).None?;
    ParseInNoMatch(TypeOrder, t, opts);
  }

  /** A class token passes over the four container classes, and over every
      scalar class whose `TYPES` do not hold it. */
  lemma ClassSkips(t: Token, opts: FieldOptions, k: nat)
    requires t.TClass? && 4 <= k <= 10
    requires forall j :: 4 <= j < k ==> t.cls !in ScalarTypes(ScalarKindOf(TypeOrder[j]))
    ensures forall j :: 0 <= j < k ==> TryParse(TypeOrder[j], t, opts).None?
  {
    forall j | 0 <= j < k ensures TryParse(TypeOrder[j], t, opts).None? {
      if j >= 4 {
        assert IsScalarClass(TypeOrder[j]);
      }
    }
  }

  /** The application form of a valid value: what reading a field returns
      after the value was written through its descriptor. Blobs read back as
      byte strings, integers as longs, sets of elements as sets of their
      elements' forms. */
  ghost function Canon(f: Descriptor, v: Value): Value
    decreases f
  {
    match f.kind
    case BlobKind => if v.VStr? || v.VBinary? then VStr(v.s) else v
    case IntKind =>
      (match v
       case VBool(b) => VLong(if b then 1 else 0)
       case VInt(i) => VLong(i)
       case VLong(i) => VLong(i)
       case _ => v)
    case ListOf(e) =>
      if v.VList? then VList(seq(|v.items|, i requires 0 <= i < |v.items| => Canon(e, v.items[i]))) else v
    case SetOf(e) =>
      if v.VSet? then VSet(set x | x in v.elems :: Canon(e, x)) else v
    case FixedListOf(es) =>
      if v.VList? && |v.items| == |es| then
        VList(seq(|es|, i requires 0 <= i < |es| => Canon(es[i], v.items[i])))
      else v
    case _ => v
  }

  /** Descriptors without a SetField anywhere inside: their storage form does
      not depend on set iteration order. */
  ghost predicate SetFree(f: Descriptor)
    decreases f
  {
    match f.kind
    case SetOf(_) => false
    case ListOf(e) => SetFree(e)
    case FixedListOf(es) => forall i :: 0 <= i < |es| ==> SetFree(es[i])
    case _ => true
  }

  /** Every element passes when the first failure is none. */
  lemma EachPasses(e: Descriptor, xs: seq<Value>)
    requires FirstFailure(seq(|xs|, i requires 0 <= i < |xs| => Validate(e, xs[i]))).Pass?
    ensures forall i :: 0 <= i < |xs| ==> Validate(e, xs[i]).Pass?
  {
    var os := seq(|xs|, i requires 0 <= i < |xs| => Validate(e, xs[i]));
    forall i | 0 <= i < |xs| ensures Validate(e, xs[i]).Pass? {
      assert os[i].Pass?;
    }
  }

  lemma EachPassesPositionally(es: seq<Descriptor>, xs: seq<Value>)
    requires |xs| == |es|
    requires FirstFailure(seq(|es|, i requires 0 <= i < |es| => Validate(es[i], xs[i]))).Pass?
    ensures forall i :: 0 <= i < |es| ==> Validate(es[i], xs[i]).Pass?
  {
    var os := seq(|es|, i requires 0 <= i < |es| => Validate(es[i], xs[i]));
    forall i | 0 <= i < |es| ensures Validate(es[i], xs[i]).Pass? {
      assert os[i].Pass?;
    }
  }

  lemma CanonHashable(f: Descriptor, x: Value)
    requires Hashable(x) && Validate(f, x).Pass?
    ensures Hashable(Canon(f, x))
  {
  }

  /** Writing a valid value and reading it back yields its application form:
      `collapse` succeeds on every valid value, and `expand` of its result is
      `Canon`. */
  lemma {:induction false} ExpandAfterCollapse(f: Descriptor, x: Value)
    requires WellFormed(x) && Validate(f, x).Pass?
    ensures Collapse(f, x).Ok?
    ensures Expand(f, Collapse(f, x).value) == Ok(Canon(f, x))
    decreases f, 2
  {
    match f.kind
    case ListOf(e) => ListRoundTrip(f, e, x);
    case SetOf(e) => SetRoundTrip(f, e, x);
    case FixedListOf(fs) => FixedRoundTrip(f, fs, x);
    case _ =>
  }

  lemma {:induction false} ListRoundTrip(f: Descriptor, e: Descriptor, x: Value)
    requires f.kind == ListOf(e) && WellFormed(x) && Validate(f, x).Pass?
    ensures Collapse(f, x).Ok?
    ensures Expand(f, Collapse(f, x).value) == Ok(Canon(f, x))
    decreases f, 1
  {
    var xs := x.items;
    EachPasses(e, xs);
    forall i | 0 <= i < |xs|
      ensures Collapse(e, xs[i]).Ok? && Expand(e, Collapse(e, xs[i]).value) == Ok(Canon(e, xs[i]))
    {
      ExpandAfterCollapse(e, xs[i]);
    }
    var cs := seq(|xs|, i requires 0 <= i < |xs| => Collapse(e, xs[i]));
    var ys := Collect(cs).value;
    assert Collapse(f, x) == Ok(VList(ys));
    var es := seq(|ys|, i requires 0 <= i < |ys| => Expand(e, ys[i]));
    var zs := Collect(es).value;
    assert Expand(f, VList(ys)) == Ok(VList(zs));
    assert zs == seq(|xs|, i requires 0 <= i < |xs| => Canon(e, xs[i]));
  }

  lemma {:induction false} SetRoundTrip(f: Descriptor, e: Descriptor, x: Value)
    requires f.kind == SetOf(e) && WellFormed(x) && Validate(f, x).Pass?
    ensures Collapse(f, x).Ok?
    ensures Expand(f, Collapse(f, x).value) == Ok(Canon(f, x))
    decreases f, 1
  {
    var xs := Enumerate(x.elems);
    EachPasses(e, xs);
    forall i | 0 <= i < |xs|
      ensures Collapse(e, xs[i]).Ok?
      ensures ExpandMember(e, Collapse(e, xs[i]).value) == Ok(Canon(e, xs[i]))
    {
      assert xs[i] in x.elems;
      SetMemberRoundTrip(f, e, x, xs[i]);
    }
    var ys := seq(|xs|, i requires 0 <= i < |xs| => Collapse(e, xs[i]).value);
    SetCollapseIs(f, e, x, ys);
    var zs := seq(|xs|, i requires 0 <= i < |xs| => Canon(e, xs[i]));
    SetExpandIs(f, e, ys, zs);
    SameImage(f, e, x, xs, zs);
  }

  /** One member of a valid set survives the round trip as a member. */
  lemma {:induction false} SetMemberRoundTrip(f: Descriptor, e: Descriptor, x: Value, y: Value)
    requires f.kind == SetOf(e) && WellFormed(x) && Validate(f, x).Pass?
    requires y in x.elems && Validate(e, y).Pass?
    ensures Collapse(e, y).Ok?
    ensures ExpandMember(e, Collapse(e, y).value) == Ok(Canon(e, y))
    decreases f, 0
  {
    ExpandAfterCollapse(e, y);
    CanonHashable(e, y);
  }

  lemma SetCollapseIs(f: Descriptor, e: Descriptor, x: Value, ys: seq<Value>)
    requires f.kind == SetOf(e) && x.VSet?
    requires |ys| == |x.elems|
    requires forall i :: 0 <= i < |ys| ==> Collapse(e, Enumerate(x.elems)[i]) == Ok(ys[i])
    ensures Collapse(f, x) == Ok(VList(ys))
  {
    var xs := Enumerate(x.elems);
    CollectAllOk(seq(|xs|, i requires 0 <= i < |xs| => Collapse(e, xs[i])), ys);
  }

  lemma SetExpandIs(f: Descriptor, e: Descriptor, ys: seq<Value>, zs: seq<Value>)
    requires f.kind == SetOf(e) && |ys| == |zs|
    requires forall i :: 0 <= i < |ys| ==> ExpandMember(e, ys[i]) == Ok(zs[i])
    ensures Expand(f, VList(ys)) == Ok(VSet(set y | y in zs))
  {
    CollectAllOk(seq(|ys|, i requires 0 <= i < |ys| => ExpandMember(e, ys[i])), zs);
  }

  /** Collecting results that are all values yields those values. */
  lemma CollectAllOk<T>(rs: seq<Result<T>>, vs: seq<T>)
    requires |rs| == |vs| && forall i :: 0 <= i < |rs| ==> rs[i] == Ok(vs[i])
    ensures Collect(rs) == Ok(vs)
  {
    var r := Collect(rs);
    assert r.Ok?;
    assert r.value == vs;
  }

  /** The values of `zs`, the images of the elements of `x` in enumeration
      order, form the application form of the set `x`. */
  lemma SameImage(f: Descriptor, e: Descriptor, x: Value, xs: seq<Value>, zs: seq<Value>)
    requires f.kind == SetOf(e) && x.VSet?
    requires |xs| == |zs| && (forall y :: y in x.elems <==> y in xs)
    requires forall i :: 0 <= i < |zs| ==> zs[i] == Canon(e, xs[i])
    ensures VSet(set y | y in zs) == Canon(f, x)
  {
    var c := Canon(f, x).elems;
    forall y | y in zs ensures y in c {
      var i :| 0 <= i < |zs| && zs[i] == y;
      assert xs[i] in x.elems;
    }
    forall y | y in c ensures y in zs {
      var z :| z in x.elems && y == Canon(e, z);
      var i :| 0 <= i < |xs| && xs[i] == z;
      assert zs[i] == y;
    }
    assert (set y | y in zs) == c;
  }

  lemma {:induction false} FixedRoundTrip(f: Descriptor, fs: seq<Descriptor>, x: Value)
    requires f.kind == FixedListOf(fs) && WellFormed(x) && Validate(f, x).Pass?
    ensures Collapse(f, x).Ok?
    ensures Expand(f, Collapse(f, x).value) == Ok(Canon(f, x))
    decreases f, 1
  {
    var xs := x.items;
    EachPassesPositionally(fs, xs);
    forall i | 0 <= i < |fs|
      ensures Collapse(fs[i], xs[i]).Ok? && Expand(fs[i], Collapse(fs[i], xs[i]).value) == Ok(Canon(fs[i], xs[i]))
    {
      ExpandAfterCollapse(fs[i], xs[i]);
    }
    var cs := seq(|fs|, i requires 0 <= i < |fs| => Collapse(fs[i], xs[i]));
    var ys := Collect(cs).value;
    assert Collapse(f, x) == Ok(VList(ys));
    var es := seq(|fs|, i requires 0 <= i < |fs| => Expand(fs[i], ys[i]));
    var zs := Collect(es).value;
    assert Expand(f, VList(ys)) == Ok(VList(zs));
    assert zs == seq(|fs|, i requires 0 <= i < |fs| => Canon(fs[i], xs[i]));
  }

  /** The application form is again a valid value for the descriptor. */
  lemma {:induction false} CanonValid(f: Descriptor, x: Value)
    requires Validate(f, x).Pass?
    ensures Validate(f, Canon(f, x)).Pass?
    decreases f, 1
  {
    match f.kind
    case ListOf(e) => CanonValidList(f, e, x);
    case SetOf(e) => CanonValidSet(f, e, x);
    case FixedListOf(fs) => CanonValidFixed(f, fs, x);
    case _ =>
  }

  lemma {:induction false} CanonValidList(f: Descriptor, e: Descriptor, x: Value)
    requires f.kind == ListOf(e) && Validate(f, x).Pass?
    ensures Validate(f, Canon(f, x)).Pass?
    decreases f, 0
  {
    var xs := x.items;
    EachPasses(e, xs);
    forall i | 0 <= i < |xs| ensures Validate(e, Canon(e, xs[i])).Pass? {
      CanonValid(e, xs[i]);
    }
  }

  lemma {:induction false} CanonValidSet(f: Descriptor, e: Descriptor, x: Value)
    requires f.kind == SetOf(e) && Validate(f, x).Pass?
    ensures Validate(f, Canon(f, x)).Pass?
    decreases f, 0
  {
    var xs := Enumerate(x.elems);
    EachPasses(e, xs);
    var c := set z | z in x.elems :: Canon(e, z);
    var cs := Enumerate(c);
    forall i | 0 <= i < |cs| ensures Validate(e, cs[i]).Pass? {
      assert cs[i] in c;
      var z :| z in x.elems && cs[i] == Canon(e, z);
      var j :| 0 <= j < |xs| && xs[j] == z;
      CanonValid(e, z);
    }
  }

  lemma {:induction false} CanonValidFixed(f: Descriptor, fs: seq<Descriptor>, x: Value)
    requires f.kind == FixedListOf(fs) && Validate(f, x).Pass?
    ensures Validate(f, Canon(f, x)).Pass?
    decreases f, 0
  {
    var xs := x.items;
    EachPassesPositionally(fs, xs);
    forall i | 0 <= i < |fs| ensures Validate(fs[i], Canon(fs[i], xs[i])).Pass? {
      CanonValid(fs[i], xs[i]);
    }
  }

  /** Collapsing the application form stores what collapsing the original
      stored, for descriptors whose storage form is order-independent. */
  lemma {:induction false} CollapseOfCanon(f: Descriptor, x: Value)
    requires SetFree(f) && Validate(f, x).Pass?
    ensures Collapse(f, Canon(f, x)) == Collapse(f, x)
    decreases f
  {
    match f.kind
    case ListOf(e) =>
      var xs := x.items;
      var ws := seq(|xs|, i requires 0 <= i < |xs| => Canon(e, xs[i]));
      EachPasses(e, xs);
      forall i | 0 <= i < |xs| ensures Collapse(e, ws[i]) == Collapse(e, xs[i]) {
        CollapseOfCanon(e, xs[i]);
      }
      assert seq(|ws|, i requires 0 <= i < |ws| => Collapse(e, ws[i]))
          == seq(|xs|, i requires 0 <= i < |xs| => Collapse(e, xs[i]));
    case FixedListOf(fs) =>
      var xs := x.items;
      var ws := seq(|fs|, i requires 0 <= i < |fs| => Canon(fs[i], xs[i]));
      EachPassesPositionally(fs, xs);
      forall i | 0 <= i < |fs| ensures Collapse(fs[i], ws[i]) == Collapse(fs[i], xs[i]) {
        CollapseOfCanon(fs[i], xs[i]);
      }
      assert seq(|fs|, i requires 0 <= i < |fs| => Collapse(fs[i], ws[i]))
          == seq(|fs|, i requires 0 <= i < |fs| => Collapse(fs[i], xs[i]));
    case _ =>
  }

  /** The storage round trip of a descriptor: `collapse(expand(collapse(x)))
      == collapse(x)`, so re-saving a loaded value stores it unchanged. */
  lemma StorageRoundTrip(f: Descriptor, x: Value)
    requires SetFree(f) && WellFormed(x) && Validate(f, x).Pass?
    ensures Collapse(f, x).Ok?
    ensures Expand(f, Collapse(f, x).value).Ok?
    ensures Collapse(f, Expand(f, Collapse(f, x).value).value) == Collapse(f, x)
  {
    ExpandAfterCollapse(f, x);
    CollapseOfCanon(f, x);
  }

  /** A unicode string of ASCII characters other than the whitespace control
      characters converts to the same integer as the byte string with those
      characters. */
  lemma {:induction false} AsciiUnicodeAsStr(s: string)
    requires forall i :: 0 <= i < |s| ==> 0 < s[i] as int < 128 && (s[i] == ' ' || !UnicodeSpace(s[i]))
    ensures ToLong(VUnicode(s)) == ToLong(VStr(s))
  {
    forall i | 0 <= i < |s|
      ensures DecimalEncodable(s[i]) && EncodeDecimalChar(s[i]) == s[i]
    {
      AsciiKept(s[i]);
    }
    EncodeEach(s, s);
  }

  /** A string whose characters all encode, each to the matching character
      of `t`, encodes to `t`. */
  lemma EncodeEach(s: string, t: string)
    requires |s| == |t|
    requires forall i :: 0 <= i < |s| ==> DecimalEncodable(s[i]) && EncodeDecimalChar(s[i]) == t[i]
    ensures EncodeDecimal(s) == Ok(t)
  {
    assert EncodeDecimal(s).value == t;
  }

  /** An ASCII character other than the control whitespace encodes as
      itself. */
  lemma AsciiKept(c: char)
    requires 0 < c as int < 128 && (c == ' ' || !UnicodeSpace(c))
    ensures DecimalEncodable(c) && EncodeDecimalChar(c) == c
  {
    AsciiDecimal(c);
  }

  /** Below the Arabic-Indic digits only the ASCII digits are decimal
      digits, and they stand for their own value. */
  lemma AsciiDecimal(c: char)
    requires c as int < 0x660
    ensures DecimalValue(c) == if '0' <= c <= '9' then Some(c as int - '0' as int) else None
  {
    assert DecimalZero(0) == 0x30 && DecimalZero(1) == 0x660;
  }

  /** The numeral "12", with or without surrounding spaces. */
  lemma ParseTwelve()
    ensures ParseInteger("12") == Some(12)
    ensures ParseInteger(" 12 ") == Some(12)
  {
    assert TrimStart("12") == "12";
    assert TrimEnd("12") == "12";
    assert "12"[..1] == "1" && "1"[..0] == [];
    assert DigitsValue("12") == 12;
    assert TrimStart(" 12 ") == "12 " by {
      assert " 12 "[1..] == "12 ";
    }
    assert TrimEnd("12 ") == "12" by {
      assert "12 "[..2] == "12";
    }
  }

  /** The Arabic-Indic digits, the second run of decimal digits. */
  lemma ArabicIndicDigit(d: nat)
    requires d < 10
    ensures DecimalValue((0x660 + d) as char) == Some(d)
  {
    var c := (0x660 + d) as char;
    assert DecimalZero(0) == 0x30 && DecimalZero(1) == 0x660;
    assert DecimalValue(c) == DecimalFrom(1, c);
  }

  /** Text that begins, after any whitespace, with neither a sign nor a
      digit is no numeral. */
  lemma {:induction false} NoNumeral(s: string)
    requires |s| > 1 && TrimEnd(TrimStart(s)) == s
    requires s[0] != '-' && s[0] != '+' && !IsDigit(s[0])
    ensures ParseInteger(s) == None
  {
    var digits := if s[|s| - 1] == 'L' || s[|s| - 1] == 'l' then s[..|s| - 1] else s;
    assert |digits| > 0 && digits[0] == s[0];
  }

  /** The no-break space is not whitespace for the byte string parser. */
  lemma NoBreakSpaceByte()
    ensures ParseInteger("\U{a0}12") == None
  {
    var s := "\U{a0}12";
    assert TrimStart(s) == s;
    assert TrimEnd(s) == s;
    NoNumeral(s);
  }

  /** Arabic-Indic one and two encode as the ASCII digits. */
  lemma EncodeArabicIndic()
    ensures EncodeDecimal("\U{661}\U{662}") == Ok("12")
  {
    var u := "\U{661}\U{662}";
    ArabicIndicEncodes(1);
    ArabicIndicEncodes(2);
    assert u[0] == 0x661 as char && u[1] == 0x662 as char;
    EncodeEach(u, "12");
  }

  /** An Arabic-Indic digit encodes as the ASCII digit of the same value. */
  lemma ArabicIndicEncodes(d: nat)
    requires d < 10
    ensures DecimalEncodable((0x660 + d) as char)
    ensures EncodeDecimalChar((0x660 + d) as char) == ('0' as int + d) as char
  {
    ArabicIndicDigit(d);
  }

  /** Decimal digits of any script are read as their ASCII counterparts. */
  lemma ForeignDigits()
    ensures ToLong(VUnicode("\U{661}\U{662}")) == Ok(VLong(12))
  {
    EncodeArabicIndic();
    ParseTwelve();
  }

  /** Unicode spaces encode as ASCII spaces. */
  lemma EncodeSpaces()
    ensures EncodeDecimal("\U{a0}12\U{3000}") == Ok(" 12 ")
  {
    AsciiDecimal('1');
    AsciiDecimal('2');
    var u := "\U{a0}12\U{3000}";
    assert UnicodeSpace(u[0]) && UnicodeSpace(u[3]);
    EncodeEach(u, " 12 ");
  }

  /** Unicode spaces around a numeral are skipped like ASCII ones, while in
      a byte string the same character is not a space. */
  lemma UnicodeSpaces()
    ensures ToLong(VUnicode("\U{a0}12\U{3000}")) == Ok(VLong(12))
    ensures ToLong(VStr("\U{a0}12")) == Err(ValueError)
  {
    EncodeSpaces();
    ParseTwelve();
    NoBreakSpaceByte();
  }

  /** A character beyond the first 256 that is neither a space nor a decimal
      digit, here a Greek alpha, cannot be encoded, so the conversion raises
      UnicodeEncodeError. */
  lemma UnencodableCharacter()
    ensures ToLong(VUnicode("\U{3b1}")) == Err(UnicodeEncodeError)
  {
    EncodeAlphaFails();
  }

  lemma EncodeAlphaFails()
    ensures EncodeDecimal("\U{3b1}") == Err(UnicodeEncodeError)
  {
    var u := "\U{3b1}";
    AsciiDecimal(u[0]);
    assert !DecimalEncodable(u[0]);
  }

  /** Whether `w` is whitespace only, as the byte string parser counts it. */
  predicate Spaces(w: string) {
    forall i :: 0 <= i < |w| ==> IsSpace(w[i])
  }

  /** Leading whitespace is dropped up to the first other character. */
  lemma {:induction false} TrimStartSpaces(w: string, r: string)
    requires Spaces(w) && (r == [] || !IsSpace(r[0]))
    ensures TrimStart(w + r) == r
  {
    if w == [] {
      assert w + r == r;
    } else {
      assert (w + r)[1..] == w[1..] + r;
      TrimStartSpaces(w[1..], r);
    }
  }

  /** Trailing whitespace is dropped back to the last other character. */
  lemma {:induction false} TrimEndSpaces(r: string, w: string)
    requires Spaces(w) && (r == [] || !IsSpace(r[|r| - 1]))
    ensures TrimEnd(r + w) == r
  {
    if w == [] {
      assert r + w == r;
    } else {
      assert (r + w)[..|r + w| - 1] == r + w[..|w| - 1];
      TrimEndSpaces(r, w[..|w| - 1]);
    }
  }

  /** The literal with its outer whitespace stripped. */
  function LiteralCore(sign: string, w2: string, d: string, suffix: string): string {
    if sign == "" then d + suffix else sign + w2 + d + suffix
  }

  /** The value a decimal literal stands for. */
  function LiteralValue(sign: string, d: string): int
    requires AllDigits(d)
  {
    if sign == "-" then -(DigitsValue(d) as int) else DigitsValue(d)
  }

  /** Stripping the outer whitespace of a literal leaves its core. */
  lemma LiteralTrimmed(w1: string, sign: string, w2: string, d: string, suffix: string, w3: string)
    requires Spaces(w1) && Spaces(w2) && Spaces(w3)
    requires sign == "" || sign == "+" || sign == "-"
    requires |d| > 0 && AllDigits(d)
    requires suffix == "" || suffix == "L" || suffix == "l"
    ensures TrimEnd(TrimStart(w1 + sign + w2 + d + suffix + w3)) == LiteralCore(sign, w2, d, suffix)
  {
    var core := d + suffix;
    assert IsDigit(d[0]) && IsDigit(d[|d| - 1]);
    assert core[0] == d[0] && !IsSpace(core[|core| - 1]);
    if sign == "" {
      assert w1 + sign + w2 + d + suffix + w3 == (w1 + w2) + core + w3;
      SpacesJoin(w1, w2);
      Stripped(w1 + w2, core, w3);
    } else {
      assert w1 + sign + w2 + d + suffix + w3 == w1 + (sign + w2 + core) + w3;
      assert LiteralCore(sign, w2, d, suffix) == sign + w2 + core;
      Stripped(w1, sign + w2 + core, w3);
    }
  }

  /** Whitespace joined to whitespace is whitespace. */
  lemma SpacesJoin(a: string, b: string)
    requires Spaces(a) && Spaces(b)
    ensures Spaces(a + b)
  {
    forall i | 0 <= i < |a + b| ensures IsSpace((a + b)[i]) {
      if i >= |a| {
        assert (a + b)[i] == b[i - |a|];
      }
    }
  }

  /** Whitespace on both sides of text that neither starts nor ends with
      whitespace is stripped. */
  lemma Stripped(w1: string, t: string, w3: string)
    requires Spaces(w1) && Spaces(w3)
    requires t != [] && !IsSpace(t[0]) && !IsSpace(t[|t| - 1])
    ensures TrimEnd(TrimStart(w1 + t + w3)) == t
  {
    assert w1 + t + w3 == w1 + (t + w3);
    assert (t + w3)[0] == t[0];
    TrimStartSpaces(w1, t + w3);
    TrimEndSpaces(t, w3);
  }

  /** The core of a literal parses to its value. */
  lemma CoreParses(s: string, sign: string, w2: string, d: string, suffix: string)
    requires Spaces(w2)
    requires sign == "" || sign == "+" || sign == "-"
    requires |d| > 0 && AllDigits(d)
    requires suffix == "" || suffix == "L" || suffix == "l"
    requires TrimEnd(TrimStart(s)) == LiteralCore(sign, w2, d, suffix)
    ensures ParseInteger(s) == Some(LiteralValue(sign, d))
  {
    SignedParses(sign, w2, d, suffix);
  }

  /** The sign, whitespace, and digits parse to the literal's value. */
  lemma SignedParses(sign: string, w2: string, d: string, suffix: string)
    requires Spaces(w2)
    requires sign == "" || sign == "+" || sign == "-"
    requires |d| > 0 && AllDigits(d)
    requires suffix == "" || suffix == "L" || suffix == "l"
    ensures ParseSigned(LiteralCore(sign, w2, d, suffix)) == Some(LiteralValue(sign, d))
  {
    DigitsParse(d, suffix);
    if sign == "" {
      UnsignedParses(d, suffix);
    } else {
      assert IsDigit(d[0]) && (d + suffix)[0] == d[0];
      assert LiteralCore(sign, w2, d, suffix) == sign + w2 + (d + suffix);
      SignThenDigits(sign, w2, d + suffix);
    }
  }

  /** Without a sign, the digits are parsed as they are. */
  lemma UnsignedParses(d: string, suffix: string)
    requires |d| > 0 && AllDigits(d)
    ensures ParseSigned(d + suffix) == ParseDigits(d + suffix)
  {
    assert IsDigit(d[0]) && (d + suffix)[0] == d[0];
  }

  /** After a sign, whitespace is skipped before the digits. */
  lemma SignThenDigits(sign: string, w2: string, core: string)
    requires Spaces(w2) && (sign == "+" || sign == "-")
    requires core != [] && !IsSpace(core[0])
    ensures ParseSigned(sign + w2 + core) ==
      match ParseDigits(core)
      case None => None
      case Some(n) => Some(if sign == "-" then -(n as int) else n)
  {
    var t := sign + w2 + core;
    assert t[0] == sign[0] && t[1..] == w2 + core;
    TrimStartSpaces(w2, core);
  }

  /** Digits with an optional `L` parse to their value. */
  lemma DigitsParse(d: string, suffix: string)
    requires |d| > 0 && AllDigits(d)
    requires suffix == "" || suffix == "L" || suffix == "l"
    ensures ParseDigits(d + suffix) == Some(DigitsValue(d))
  {
    var core := d + suffix;
    if suffix == "" {
      assert IsDigit(d[|d| - 1]) && core == d;
    } else {
      assert core[..|core| - 1] == d;
    }
  }

  /** Every decimal literal reads as its value: whitespace may surround it
      and may also stand between the sign and the digits, and an `L` may
      follow the digits. */
  lemma LiteralParses(w1: string, sign: string, w2: string, d: string, suffix: string, w3: string)
    requires Spaces(w1) && Spaces(w2) && Spaces(w3)
    requires sign == "" || sign == "+" || sign == "-"
    requires |d| > 0 && AllDigits(d)
    requires suffix == "" || suffix == "L" || suffix == "l"
    ensures ParseInteger(w1 + sign + w2 + d + suffix + w3) == Some(LiteralValue(sign, d))
  {
    LiteralTrimmed(w1, sign, w2, d, suffix, w3);
    CoreParses(w1 + sign + w2 + d + suffix + w3, sign, w2, d, suffix);
  }

  /** `long()` of such a literal, as a byte string, is its value. */
  lemma LiteralConverts(w1: string, sign: string, w2: string, d: string, suffix: string, w3: string)
    requires Spaces(w1) && Spaces(w2) && Spaces(w3)
    requires sign == "" || sign == "+" || sign == "-"
    requires |d| > 0 && AllDigits(d)
    requires suffix == "" || suffix == "L" || suffix == "l"
    ensures ToLong(VStr(w1 + sign + w2 + d + suffix + w3)) == Ok(VLong(LiteralValue(sign, d)))
  {
    LiteralParses(w1, sign, w2, d, suffix, w3);
  }

  /** `s` is the literal `w1 + sign + w2 + d + suffix + w3`: whitespace, an
      optional sign, whitespace, digits, an optional `L`, whitespace. */
  predicate Literal(s: string, w1: string, sign: string, w2: string, d: string, suffix: string, w3: string) {
    Spaces(w1) && Spaces(w2) && Spaces(w3)
    && (sign == "" || sign == "+" || sign == "-")
    && |d| > 0 && AllDigits(d)
    && (suffix == "" || suffix == "L" || suffix == "l")
    && s == w1 + sign + w2 + d + suffix + w3
  }

  /** The parser accepts exactly the decimal literals, and each at its
      value. */
  lemma LiteralsExactly(s: string)
    ensures ParseInteger(s).Some? <==>
      exists w1, sign, w2, d, suffix, w3 :: Literal(s, w1, sign, w2, d, suffix, w3)
    ensures forall w1, sign, w2, d, suffix, w3 :: Literal(s, w1, sign, w2, d, suffix, w3) ==>
      ParseInteger(s) == Some(LiteralValue(sign, d))
  {
    forall w1, sign, w2, d, suffix, w3 | Literal(s, w1, sign, w2, d, suffix, w3)
      ensures ParseInteger(s) == Some(LiteralValue(sign, d))
    {
      LiteralParses(w1, sign, w2, d, suffix, w3);
    }
    if ParseInteger(s).Some? {
      var w1, sign, w2, d, suffix, w3 := ParsedIsLiteral(s);
    }
  }

  /** Whatever the parser accepts splits into the parts of a literal. */
  lemma ParsedIsLiteral(s: string) returns (w1: string, sign: string, w2: string, d: string, suffix: string, w3: string)
    requires ParseInteger(s).Some?
    ensures Literal(s, w1, sign, w2, d, suffix, w3)
  {
    w1 := TrimStartSplit(s);
    var a := TrimStart(s);
    w3 := TrimEndSplit(a);
    var core := TrimEnd(a);
    sign, w2, d, suffix := SignedSplit(core);
    Assemble(s, w1, core, w3, sign, w2, d, suffix);
  }

  /** Regrouping the parts of a split literal. */
  lemma Assemble(s: string, w1: string, core: string, w3: string, sign: string, w2: string, d: string, suffix: string)
    requires s == w1 + (core + w3) && core == sign + w2 + d + suffix
    ensures s == w1 + sign + w2 + d + suffix + w3
  {
  }

  /** Leading whitespace comes off as a prefix. */
  lemma {:induction false} TrimStartSplit(s: string) returns (w: string)
    ensures Spaces(w) && s == w + TrimStart(s)
  {
    if s != [] && IsSpace(s[0]) {
      var rest := TrimStartSplit(s[1..]);
      w := [s[0]] + rest;
      assert s == [s[0]] + s[1..];
    } else {
      w := [];
    }
  }

  /** Trailing whitespace comes off as a suffix. */
  lemma {:induction false} TrimEndSplit(s: string) returns (w: string)
    ensures Spaces(w) && s == TrimEnd(s) + w
  {
    if s != [] && IsSpace(s[|s| - 1]) {
      var rest := TrimEndSplit(s[..|s| - 1]);
      w := rest + [s[|s| - 1]];
      assert s == s[..|s| - 1] + [s[|s| - 1]];
    } else {
      w := [];
    }
  }

  /** A trimmed literal the parser accepts is a sign, whitespace, digits
      and a suffix. */
  lemma SignedSplit(t: string) returns (sign: string, w2: string, d: string, suffix: string)
    requires ParseSigned(t).Some?
    ensures (sign == "" || sign == "+" || sign == "-") && Spaces(w2)
    ensures |d| > 0 && AllDigits(d) && (suffix == "" || suffix == "L" || suffix == "l")
    ensures t == sign + w2 + d + suffix
    ensures ParseSigned(t) == Some(LiteralValue(sign, d))
  {
    if |t| > 0 && (t[0] == '-' || t[0] == '+') {
      sign, w2, d, suffix := SignThenDigitsSplit(t);
    } else {
      sign, w2 := "", "";
      d, suffix := DigitsSplit(t);
    }
  }

  /** The signed case of that split. */
  lemma SignThenDigitsSplit(t: string) returns (sign: string, w2: string, d: string, suffix: string)
    requires |t| > 0 && (t[0] == '-' || t[0] == '+') && ParseDigits(TrimStart(t[1..])).Some?
    ensures (sign == "+" || sign == "-") && sign[0] == t[0] && Spaces(w2)
    ensures |d| > 0 && AllDigits(d) && (suffix == "" || suffix == "L" || suffix == "l")
    ensures t == sign + w2 + d + suffix
    ensures ParseDigits(TrimStart(t[1..])) == Some(DigitsValue(d))
  {
    sign := [t[0]];
    var rest := t[1..];
    w2 := TrimStartSplit(rest);
    d, suffix := DigitsSplit(TrimStart(rest));
    assert t == sign + rest;
    Prefixed(t, sign, rest, w2, TrimStart(rest), d, suffix);
  }

  /** Regrouping a sign, whitespace, digits and a suffix. */
  lemma Prefixed(t: string, sign: string, rest: string, w2: string, u: string, d: string, suffix: string)
    requires t == sign + rest && rest == w2 + u && u == d + suffix
    ensures t == sign + w2 + d + suffix
  {
  }

  /** Digits the parser accepts, with the suffix split off. */
  lemma DigitsSplit(u: string) returns (d: string, suffix: string)
    requires ParseDigits(u).Some?
    ensures |d| > 0 && AllDigits(d) && (suffix == "" || suffix == "L" || suffix == "l")
    ensures u == d + suffix && ParseDigits(u) == Some(DigitsValue(d))
  {
    if |u| > 0 && (u[|u| - 1] == 'L' || u[|u| - 1] == 'l') {
      d, suffix := u[..|u| - 1], [u[|u| - 1]];
      assert u == d + suffix;
    } else {
      d, suffix := u, "";
    }
  }

  /** Whitespace between the sign and the digits is skipped: `long('- 5')`
      is -5. */
  lemma SpaceAfterSign()
    ensures ToLong(VStr("- 5")) == Ok(VLong(-5))
  {
    var d := "5";
    assert DigitsValue(d) == 5 by {
      assert d[..0] == [];
    }
    LiteralConverts([], "-", " ", d, [], []);
    assert [] + "-" + " " + d + [] + [] == "- 5";
  }

  /** A unicode string takes the same path once encoded:
      `long(u'- 5')` is -5. */
  lemma UnicodeSpaceAfterSign()
    ensures ToLong(VUnicode("- 5")) == Ok(VLong(-5))
  {
    var u := "- 5";
    AsciiDecimal('-');
    AsciiDecimal('5');
    AsciiKept('-');
    AsciiKept(' ');
    AsciiKept('5');
    EncodeEach(u, u);
    SpaceAfterSign();
  }

  /** Tabs count as whitespace too, and an `L` may follow: `long(' -\t7L ')`
      is -7. */
  lemma TabAfterSign()
    ensures ToLong(VStr(" -\t7L ")) == Ok(VLong(-7))
  {
    var d := "7";
    assert DigitsValue(d) == 7 by {
      assert d[..0] == [];
    }
    LiteralConverts(" ", "-", "\t", d, "L", " ");
    assert " " + "-" + "\t" + d + "L" + " " == " -\t7L ";
  }

  /** The runs of decimal digits ascend, each at least ten code points
      after the one before. */
  lemma {:induction false} RunsAscend(j: nat, k: nat)
    requires j < k < DecimalRuns
    ensures DecimalZero(j) + 10 <= DecimalZero(k)
    decreases k - j
  {
    if j + 1 < k {
      RunsAscend(j + 1, k);
    }
  }

  /** The search for a digit's value passes every run below its own. */
  lemma {:induction false} DigitFound(j: nat, k: nat, c: char, d: nat)
    requires j <= k < DecimalRuns && d < 10 && c as int == DecimalZero(k) + d
    ensures DecimalFrom(j, c) == Some(d)
    decreases k - j
  {
    if j < k {
      RunsAscend(j, k);
      DigitFound(j + 1, k, c, d);
    }
  }

  /** Every decimal digit, of every script, is encoded as the ASCII digit
      of the same value; none of them is a space. */
  lemma EncodeDigit(k: nat, c: char, d: nat)
    requires k < DecimalRuns && d < 10 && c as int == DecimalZero(k) + d
    ensures DecimalValue(c) == Some(d) && !UnicodeSpace(c)
    ensures DecimalEncodable(c) && EncodeDecimalChar(c) == ('0' as int + d) as char
  {
    DigitFound(0, k, c, d);
    DigitNotSpace(k, c, d);
  }

  /** The spaces fall between the runs of digits: the runs up to the
      Myanmar digits lie between the no-break space and the Ogham space
      mark, the Khmer and Mongolian digits miss the Mongolian vowel
      separator, the runs up to the Lepcha and Ol Chiki digits end below
      the general punctuation spaces, and the rest start above the
      ideographic space. */
  lemma DigitNotSpace(k: nat, c: char, d: nat)
    requires k < DecimalRuns && d < 10 && c as int == DecimalZero(k) + d
    ensures !UnicodeSpace(c)
  {
    if k == 0 || k == 17 || k == 18 || k == 19 || k == 27 {
    } else if k < 17 {
      RunsAscend(k, 17);
      if k > 1 {
        RunsAscend(1, k);
      }
    } else if k < 27 {
      RunsAscend(k, 27);
      if k > 20 {
        RunsAscend(20, k);
      }
    } else if k > 28 {
      RunsAscend(28, k);
    }
  }

  /** The number a string of decimal digits of any scripts spells. */
  function NumeralValue(s: string): nat
    requires forall i :: 0 <= i < |s| ==> DecimalValue(s[i]).Some?
  {
    if s == [] then 0 else 10 * NumeralValue(s[..|s| - 1]) + DecimalValue(s[|s| - 1]).value
  }

  /** The ASCII digits of the same values spell the same number. */
  lemma {:induction false} NumeralDigits(s: string, t: string)
    requires |s| == |t| && forall i :: 0 <= i < |s| ==> DecimalValue(s[i]).Some?
    requires forall i :: 0 <= i < |s| ==> t[i] == ('0' as int + DecimalValue(s[i]).value) as char
    ensures AllDigits(t) && DigitsValue(t) == NumeralValue(s)
  {
    assert forall i :: 0 <= i < |s| ==> DecimalValue(s[i]).value < 10;
    if s != [] {
      NumeralDigits(s[..|s| - 1], t[..|t| - 1]);
    }
  }

  /** The ASCII digits with the values of the digits of `s`. */
  function AsciiDigits(s: string): (t: string)
    requires forall i :: 0 <= i < |s| ==> DecimalValue(s[i]).Some?
    ensures |t| == |s| && forall i :: 0 <= i < |s| ==> t[i] == ('0' as int + DecimalValue(s[i]).value) as char
  {
    seq(|s|, i requires 0 <= i < |s| => ('0' as int + DecimalValue(s[i]).value) as char)
  }

  /** `n` spaces. */
  function Blank(n: nat): (b: string)
    ensures |b| == n && forall i :: 0 <= i < n ==> b[i] == ' '
  {
    seq(n, i => ' ')
  }

  /** Encoding works character by character, so it distributes over
      concatenation. */
  lemma EncodeConcat(a: string, b: string)
    requires EncodeDecimal(a).Ok? && EncodeDecimal(b).Ok?
    ensures EncodeDecimal(a + b) == Ok(EncodeDecimal(a).value + EncodeDecimal(b).value)
  {
    var e := EncodeDecimal(a).value + EncodeDecimal(b).value;
    forall i | 0 <= i < |a + b| ensures DecimalEncodable((a + b)[i]) && EncodeDecimalChar((a + b)[i]) == e[i] {
      if i >= |a| {
        assert (a + b)[i] == b[i - |a|];
      }
    }
    EncodeEach(a + b, e);
  }

  /** Unicode spaces encode as ASCII spaces. */
  lemma EncodeBlank(w: string)
    requires forall i :: 0 <= i < |w| ==> UnicodeSpace(w[i])
    ensures EncodeDecimal(w) == Ok(Blank(|w|))
  {
    EncodeEach(w, Blank(|w|));
  }

  /** Digits of any script encode as the ASCII digits of the same values. */
  lemma EncodeDigits(s: string)
    requires forall i :: 0 <= i < |s| ==> DecimalValue(s[i]).Some?
    ensures EncodeDecimal(s) == Ok(AsciiDigits(s))
  {
    var t := AsciiDigits(s);
    forall i | 0 <= i < |s| ensures DecimalEncodable(s[i]) && EncodeDecimalChar(s[i]) == t[i] {
      var k :| 0 <= k < DecimalRuns && s[i] as int == DecimalZero(k) + DecimalValue(s[i]).value;
      EncodeDigit(k, s[i], DecimalValue(s[i]).value);
    }
    EncodeEach(s, t);
  }

  /** Unicode spaces become ASCII spaces and digits of any script their
      ASCII counterparts. */
  lemma EncodeNumeral(w1: string, s: string, w2: string)
    requires UnicodeBlank(w1) && UnicodeBlank(w2) && AllDecimal(s)
    ensures EncodeDecimal(w1 + s + w2) == Ok(Blank(|w1|) + AsciiDigits(s) + Blank(|w2|))
  {
    EncodeBlank(w1);
    EncodeDigits(s);
    EncodeBlank(w2);
    EncodeConcat(w1, s);
    EncodeConcat(w1 + s, w2);
  }

  /** A unicode string of decimal digits of any scripts, with any Unicode
      spaces around it, converts to the number the digits spell. */
  lemma UnicodeNumeral(w1: string, s: string, w2: string)
    requires UnicodeBlank(w1) && UnicodeBlank(w2)
    requires |s| > 0 && AllDecimal(s)
    ensures ToLong(VUnicode(w1 + s + w2)) == Ok(VLong(NumeralValue(s)))
  {
    var t := AsciiDigits(s);
    EncodeNumeral(w1, s, w2);
    NumeralDigits(s, t);
    NumeralParses(Blank(|w1|), t, Blank(|w2|));
    UnicodeConverts(w1 + s + w2, Blank(|w1|) + t + Blank(|w2|), NumeralValue(s));
  }

  /** Unsigned digits with whitespace around them parse to their value. */
  lemma NumeralParses(w1: string, t: string, w3: string)
    requires Spaces(w1) && Spaces(w3)
    requires |t| > 0 && AllDigits(t)
    ensures ParseInteger(w1 + t + w3) == Some(DigitsValue(t))
  {
    assert IsDigit(t[0]) && IsDigit(t[|t| - 1]);
    Stripped(w1, t, w3);
    assert t + "" == t;
    UnsignedParses(t, "");
    DigitsParse(t, "");
  }

  /** Whether every character of `w` is a Unicode space. */
  predicate UnicodeBlank(w: string) {
    forall i :: 0 <= i < |w| ==> UnicodeSpace(w[i])
  }

  /** Whether every character of `s` is a decimal digit of some script. */
  predicate AllDecimal(s: string) {
    forall i :: 0 <= i < |s| ==> DecimalValue(s[i]).Some?
  }

  /** A unicode string converts to what its decimal encoding parses to. */
  lemma UnicodeConverts(u: string, e: string, n: int)
    requires EncodeDecimal(u) == Ok(e) && ParseInteger(e) == Some(n)
    ensures ToLong(VUnicode(u)) == Ok(VLong(n))
  {
  }
}
