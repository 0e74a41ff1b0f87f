/** The state of a Document instance and its local transitions
    (mongotron/Document.py): the attributes dict, the dirty-field set, the
    pending update operations, and their compilation into one MongoDB
    update. */
module Documents {
  import opened Errors
  import opened Values
  import opened FieldTypes
  import opened KeyMapping
  import opened DocumentMeta

  /** Pending operations: operator, then short key, then the queued operands
      in order. `$addToSet` keeps them under `{'$each': [...]}`, the others
      as a plain list; `Render` restores that shape. */
  type Pending = map<string, map<string, seq<Value>>>

  /** An update document: operator, then short key, then operand. */
  type Update = map<string, map<string, Value>>

  /** A Document instance: the (collapsed) attribute values by canonical
      name, the names marked dirty, the pending operations, and the identity
      query captured by the last `load_dict`. */
  datatype Doc = Doc(attributes: map<string, Value>, dirty: set<string>, ops: Pending, identity: Value)

  /** The document after a call that may raise: Python mutates the instance
      in place, so a call that raises can leave changes behind. */
  datatype Step = Step(doc: Doc, status: Outcome)

  /** `get(key)`: the stored value, or None. */
  function Get(doc: Doc, key: string): Value {
    if key in doc.attributes then doc.attributes[key] else VNone
  }

  /** The operands queued under `op` for the short key `short`. */
  function Queued(ops: Pending, op: string, short: string): seq<Value> {
    if op in ops && short in ops[op] then ops[op][short] else []
  }

  /** The operands one call queues: a list operand is spread, anything else
      is queued as one operand. */
  function Operands(v: Value): seq<Value> {
    if v.VList? then v.items else [v]
  }

  /** The accumulation step of `add_operation`: the operands are appended to
      those already queued for the operator and key; nothing is summed. */
  function Enqueue(ops: Pending, op: string, short: string, v: Value): (r: Pending)
    ensures Queued(r, op, short) == Queued(ops, op, short) + Operands(v)
    ensures r.Keys == ops.Keys + {op} && r[op].Keys == (if op in ops then ops[op].Keys else {}) + {short}
    ensures forall o, s :: (o != op || s != short) ==> Queued(r, o, s) == Queued(ops, o, s)
    ensures forall o :: o in ops && o != op ==> r[o] == ops[o]
  {
    var forOp := if op in ops then ops[op] else map[];
    ops[op := forOp[short := Queued(ops, op, short) + Operands(v)]]
  }

  /** `ops.setdefault(op, {})`. */
  function Touch(ops: Pending, op: string): Pending {
    if op in ops then ops else ops[op := map[]]
  }

  /** `add_operation(op, key, val)`. Every operator but `$unset` requires a
      declared field and collapses the operand with it (KeyError for an
      undeclared key); the key is then shortened, the operator's entry
      created, and `$set` is refused with ValueError after that entry
      exists. */
  ghost function AddOperation(c: DocClass, doc: Doc, op: string, key: string, val: Value): (r: Step)
    ensures r.doc.attributes == doc.attributes && r.doc.dirty == doc.dirty && r.doc.identity == doc.identity
    ensures r.status.Pass? <==>
      op != "$set" && (op == "$unset" || (key in c.fieldTypes && Collapse(c.fieldTypes[key], val).Ok?))
    ensures op != "$unset" && key !in c.fieldTypes ==> r == Step(doc, Fail(KeyError))
    ensures op != "$unset" && key in c.fieldTypes && Collapse(c.fieldTypes[key], val).Err? ==>
      r == Step(doc, Fail(Collapse(c.fieldTypes[key], val).error))
    ensures op == "$set" && r.status != Fail(KeyError) && (key in c.fieldTypes ==> Collapse(c.fieldTypes[key], val).Ok?) ==>
      r.status == Fail(ValueError) && r.doc.ops == Touch(doc.ops, "$set")
    ensures r.status.Pass? ==>
      var operand := if op == "$unset" then val else Collapse(c.fieldTypes[key], val).value;
      Queued(r.doc.ops, op, LongToShort(c.fieldMap, key)) == Queued(doc.ops, op, LongToShort(c.fieldMap, key)) + Operands(operand)
      && (forall o, s :: (o != op || s != LongToShort(c.fieldMap, key)) ==> Queued(r.doc.ops, o, s) == Queued(doc.ops, o, s))
  {
    var collapsed :=
      if op == "$unset" then Ok(val)
      else if key !in c.fieldTypes then Err(KeyError)
      else Collapse(c.fieldTypes[key], val);
    match collapsed
    case Err(e) => Step(doc, Fail(e))
    case Ok(operand) =>
      var short := LongToShort(c.fieldMap, key);
      if op == "$set" then Step(doc.(ops := Touch(doc.ops, op)), Fail(ValueError))
      else Step(doc.(ops := Enqueue(doc.ops, op, short, operand)), Pass)
  }

  /** `unset(key)`: the attribute is dropped and operand 1 is queued under
      `$unset` for its short name. The dirty mark is left in place. */
  function Unset(c: DocClass, doc: Doc, key: string): (r: Doc)
    ensures key !in r.attributes && Get(r, key) == VNone
    ensures forall k :: k != key ==> Get(r, k) == Get(doc, k)
    ensures r.dirty == doc.dirty && r.identity == doc.identity
    ensures Queued(r.ops, "$unset", LongToShort(c.fieldMap, key)) == Queued(doc.ops, "$unset", LongToShort(c.fieldMap, key)) + [VInt(1)]
    ensures forall o, s :: (o != "$unset" || s != LongToShort(c.fieldMap, key)) ==> Queued(r.ops, o, s) == Queued(doc.ops, o, s)
  {
    Doc(doc.attributes - {key}, doc.dirty, Enqueue(doc.ops, "$unset", LongToShort(c.fieldMap, key), VInt(1)), doc.identity)
  }

  /** `set(key, value)`: a value other than None is stored and its key marked
      dirty; None behaves exactly as `unset`. Either way `get` then returns
      `value`. */
  function Set(c: DocClass, doc: Doc, key: string, value: Value): (r: Doc)
    ensures Get(r, key) == value
    ensures forall k :: k != key ==> Get(r, k) == Get(doc, k)
    ensures value != VNone ==> r.dirty == doc.dirty + {key} && r.ops == doc.ops && r.attributes.Keys == doc.attributes.Keys + {key}
    ensures value == VNone ==> r == Unset(c, doc, key)
    ensures r.identity == doc.identity
  {
    if value == VNone then Unset(c, doc, key)
    else Doc(doc.attributes[key := value], doc.dirty + {key}, doc.ops, doc.identity)
  }

  /** `unset` is `add_operation('$unset', key, 1)` after the attribute has
      been dropped, and never raises. */
  lemma UnsetIsAddOperation(c: DocClass, doc: Doc, key: string)
    ensures AddOperation(c, doc.(attributes := doc.attributes - {key}), "$unset", key, VInt(1)) == Step(Unset(c, doc, key), Pass)
  {
  }

  /** `mark_dirty(key)`: only the dirty set changes. */
  function MarkDirty(doc: Doc, key: string): (r: Doc)
    ensures r.dirty == doc.dirty + {key} && key in r.dirty
    ensures r.attributes == doc.attributes && r.ops == doc.ops && r.identity == doc.identity
  {
    doc.(dirty := doc.dirty + {key})
  }

  /** The `value` argument of `inc` and `dec`, which defaults to 1. */
  function ValueOrOne(value: Option<Value>): Value {
    if value.Some? then value.value else VInt(1)
  }

  /** `inc(key, value=1)`: the operand is queued under `$inc`. */
  ghost function Inc(c: DocClass, doc: Doc, key: string, value: Option<Value>): (r: Step)
    ensures r.status.Pass? <==> key in c.fieldTypes && Collapse(c.fieldTypes[key], ValueOrOne(value)).Ok?
    ensures key !in c.fieldTypes ==> r == Step(doc, Fail(KeyError))
    ensures key in c.fieldTypes && Collapse(c.fieldTypes[key], ValueOrOne(value)).Err? ==>
      r == Step(doc, Fail(Collapse(c.fieldTypes[key], ValueOrOne(value)).error))
    ensures r.status.Pass? ==>
      Queued(r.doc.ops, "$inc", LongToShort(c.fieldMap, key))
        == Queued(doc.ops, "$inc", LongToShort(c.fieldMap, key)) + Operands(Collapse(c.fieldTypes[key], ValueOrOne(value)).value)
    ensures r.doc.attributes == doc.attributes && r.doc.dirty == doc.dirty && r.doc.identity == doc.identity
    ensures r.status.Pass? ==>
      forall o, s :: (o != "$inc" || s != LongToShort(c.fieldMap, key)) ==> Queued(r.doc.ops, o, s) == Queued(doc.ops, o, s)
  {
    AddOperation(c, doc, "$inc", key, ValueOrOne(value))
  }

  /** `-abs(value)`: numbers only (`abs` raises TypeError otherwise); a
      boolean becomes an int. */
  function NegAbs(v: Value): (r: Result<Value>)
    ensures r.Ok? <==> v.VBool? || v.VInt? || v.VLong? || v.VFloat?
    ensures r.Err? ==> r.error == TypeError
    ensures v.VBool? ==> r == Ok(VInt(if v.b then -1 else 0))
    ensures v.VInt? ==> r.Ok? && r.value.VInt? && r.value.i <= 0 && (r.value.i == v.i || r.value.i == -v.i)
    ensures v.VLong? ==> r.Ok? && r.value.VLong? && r.value.i <= 0 && (r.value.i == v.i || r.value.i == -v.i)
    ensures v.VFloat? ==> r.Ok? && r.value.VFloat? && r.value.r <= 0.0 && (r.value.r == v.r || r.value.r == -v.r)
  {
    match v
    case VBool(b) => Ok(VInt(if b then -1 else 0))
    case VInt(i) => Ok(VInt(if i < 0 then i else -i))
    case VLong(i) => Ok(VLong(if i < 0 then i else -i))
    case VFloat(x) => Ok(VFloat(if x < 0.0 then x else -x))
    case _ => Err(TypeError)
  }

  /** The negation of a number, as unary minus computes it. */
  function Negate(v: Value): Value {
    match v
    case VInt(i) => VInt(-i)
    case VLong(i) => VLong(-i)
    case VFloat(x) => VFloat(-x)
    case _ => v
  }

  /** `-abs` forgets the sign: `dec(key, n)` and `dec(key, -n)` queue the
      same operand. */
  lemma NegAbsIgnoresSign(v: Value)
    ensures NegAbs(Negate(v)) == NegAbs(v)
  {
  }

  /** `dec(key, value=1)`: `-abs(value)` queued under `$inc`; `abs` raises
      before anything is queued. */
  ghost function Dec(c: DocClass, doc: Doc, key: string, value: Option<Value>): (r: Step)
    ensures NegAbs(ValueOrOne(value)).Err? ==> r == Step(doc, Fail(TypeError))
    ensures r.status.Pass? <==>
      NegAbs(ValueOrOne(value)).Ok? && key in c.fieldTypes && Collapse(c.fieldTypes[key], NegAbs(ValueOrOne(value)).value).Ok?
    ensures NegAbs(ValueOrOne(value)).Ok? && key !in c.fieldTypes ==> r == Step(doc, Fail(KeyError))
    ensures NegAbs(ValueOrOne(value)).Ok? && key in c.fieldTypes && Collapse(c.fieldTypes[key], NegAbs(ValueOrOne(value)).value).Err? ==>
      r == Step(doc, Fail(Collapse(c.fieldTypes[key], NegAbs(ValueOrOne(value)).value).error))
    ensures r.status.Pass? ==>
      Queued(r.doc.ops, "$inc", LongToShort(c.fieldMap, key))
         == Queued(doc.ops, "$inc", LongToShort(c.fieldMap, key)) + Operands(Collapse(c.fieldTypes[key], NegAbs(ValueOrOne(value)).value).value)
    ensures r.doc.attributes == doc.attributes && r.doc.dirty == doc.dirty && r.doc.identity == doc.identity
    ensures r.status.Pass? ==>
      forall o, s :: (o != "$inc" || s != LongToShort(c.fieldMap, key)) ==> Queued(r.doc.ops, o, s) == Queued(doc.ops, o, s)
  {
    match NegAbs(ValueOrOne(value))
    case Err(e) => Step(doc, Fail(e))
    case Ok(n) => AddOperation(c, doc, "$inc", key, n)
  }

  /** `addToSet(key, value)`: the collapsed operand joins `$each` under
      `$addToSet`. */
  ghost function AddToSet(c: DocClass, doc: Doc, key: string, value: Value): (r: Step)
    ensures r.status.Pass? <==> key in c.fieldTypes && Collapse(c.fieldTypes[key], value).Ok?
    ensures key !in c.fieldTypes ==> r == Step(doc, Fail(KeyError))
    ensures key in c.fieldTypes && Collapse(c.fieldTypes[key], value).Err? ==>
      r == Step(doc, Fail(Collapse(c.fieldTypes[key], value).error))
    ensures r.status.Pass? ==>
      Queued(r.doc.ops, "$addToSet", LongToShort(c.fieldMap, key))
        == Queued(doc.ops, "$addToSet", LongToShort(c.fieldMap, key)) + Operands(Collapse(c.fieldTypes[key], value).value)
    ensures r.doc.attributes == doc.attributes && r.doc.dirty == doc.dirty && r.doc.identity == doc.identity
    ensures r.status.Pass? ==>
      forall o, s :: (o != "$addToSet" || s != LongToShort(c.fieldMap, key)) ==> Queued(r.doc.ops, o, s) == Queued(doc.ops, o, s)
  {
    AddOperation(c, doc, "$addToSet", key, value)
  }

  /** `push(key, value)`, queued as `$pushAll`. */
  ghost function Push(c: DocClass, doc: Doc, key: string, value: Value): (r: Step)
    ensures r.status.Pass? <==> key in c.fieldTypes && Collapse(c.fieldTypes[key], value).Ok?
    ensures key !in c.fieldTypes ==> r == Step(doc, Fail(KeyError))
    ensures key in c.fieldTypes && Collapse(c.fieldTypes[key], value).Err? ==>
      r == Step(doc, Fail(Collapse(c.fieldTypes[key], value).error))
    ensures r.status.Pass? ==>
      Queued(r.doc.ops, "$pushAll", LongToShort(c.fieldMap, key))
        == Queued(doc.ops, "$pushAll", LongToShort(c.fieldMap, key)) + Operands(Collapse(c.fieldTypes[key], value).value)
    ensures r.doc.attributes == doc.attributes && r.doc.dirty == doc.dirty && r.doc.identity == doc.identity
    ensures r.status.Pass? ==>
      forall o, s :: (o != "$pushAll" || s != LongToShort(c.fieldMap, key)) ==> Queued(r.doc.ops, o, s) == Queued(doc.ops, o, s)
  {
    AddOperation(c, doc, "$pushAll", key, value)
  }

  /** `pull(key, value)`, queued as `$pullAll`. */
  ghost function Pull(c: DocClass, doc: Doc, key: string, value: Value): (r: Step)
    ensures r.status.Pass? <==> key in c.fieldTypes && Collapse(c.fieldTypes[key], value).Ok?
    ensures key !in c.fieldTypes ==> r == Step(doc, Fail(KeyError))
    ensures key in c.fieldTypes && Collapse(c.fieldTypes[key], value).Err? ==>
      r == Step(doc, Fail(Collapse(c.fieldTypes[key], value).error))
    ensures r.status.Pass? ==>
      Queued(r.doc.ops, "$pullAll", LongToShort(c.fieldMap, key))
        == Queued(doc.ops, "$pullAll", LongToShort(c.fieldMap, key)) + Operands(Collapse(c.fieldTypes[key], value).value)
    ensures r.doc.attributes == doc.attributes && r.doc.dirty == doc.dirty && r.doc.identity == doc.identity
    ensures r.status.Pass? ==>
      forall o, s :: (o != "$pullAll" || s != LongToShort(c.fieldMap, key)) ==> Queued(r.doc.ops, o, s) == Queued(doc.ops, o, s)
  {
    AddOperation(c, doc, "$pullAll", key, value)
  }

  /** The concatenation of the operands each of `vs` contributes. */
  function AllOperands(vs: seq<Value>): seq<Value> {
    if vs == [] then [] else AllOperands(vs[..|vs| - 1]) + Operands(vs[|vs| - 1])
  }

  /** Queueing `vs` one call after another under the same operator and key. */
  function EnqueueAll(ops: Pending, op: string, short: string, vs: seq<Value>): Pending {
    if vs == [] then ops else Enqueue(EnqueueAll(ops, op, short, vs[..|vs| - 1]), op, short, vs[|vs| - 1])
  }

  /** Repeated calls queue every operand, in call order; `$inc` operands are
      never added together. */
  lemma {:induction false} EnqueueAllAccumulates(ops: Pending, op: string, short: string, vs: seq<Value>)
    ensures Queued(EnqueueAll(ops, op, short, vs), op, short) == Queued(ops, op, short) + AllOperands(vs)
    ensures forall o, s :: (o != op || s != short) ==> Queued(EnqueueAll(ops, op, short, vs), o, s) == Queued(ops, o, s)
  {
    if vs != [] {
      EnqueueAllAccumulates(ops, op, short, vs[..|vs| - 1]);
    }
  }

  /** The shape an update document gives a key's queued operands. */
  function Render(op: string, operands: seq<Value>): Value {
    if op == "$addToSet" then VDict(map["$each" := VList(operands)]) else VList(operands)
  }

  /** One operator's pending operands in update-document shape. */
  function RenderOp(op: string, m: map<string, seq<Value>>): (u: map<string, Value>)
    ensures u.Keys == m.Keys
    ensures forall s :: s in m ==> u[s] == Render(op, m[s])
  {
    map s | s in m :: Render(op, m[s])
  }

  /** All pending operations in update-document shape. */
  function RenderPending(ops: Pending): (u: Update)
    ensures u.Keys == ops.Keys
    ensures forall o :: o in ops ==> u[o] == RenderOp(o, ops[o])
  {
    map o | o in ops :: RenderOp(o, ops[o])
  }

  /** The dirty attributes, by canonical name. */
  function DirtyAttributes(doc: Doc): map<string, Value>
    requires doc.dirty <= doc.attributes.Keys
  {
    map k | k in doc.dirty :: doc.attributes[k]
  }

  /** The `operations` property: a copy of the pending operations plus a
      `$set` of every dirty attribute under its short name. A dirty key with
      no attribute raises KeyError. */
  ghost function Operations(c: DocClass, doc: Doc): (r: Result<Update>)
    ensures r.Ok? <==> doc.dirty <= doc.attributes.Keys
    ensures r.Err? ==> r.error == KeyError
    ensures r.Ok? ==> r.value.Keys == doc.ops.Keys + {"$set"}
    ensures r.Ok? ==> forall o :: o in doc.ops && o != "$set" ==> r.value[o] == RenderOp(o, doc.ops[o])
  {
    if !(doc.dirty <= doc.attributes.Keys) then Err(KeyError)
    else
      Ok(RenderPending(doc.ops)["$set" := Rename(c.fieldMap, DirtyAttributes(doc))])
  }

  /** The `$set` of `operations` holds exactly the short names of the dirty
      keys; when no two dirty keys share a short name, each holds its
      attribute's current value. */
  lemma OperationsSet(c: DocClass, doc: Doc)
    requires doc.dirty <= doc.attributes.Keys
    ensures Operations(c, doc).value["$set"].Keys == ShortNames(c.fieldMap, doc.dirty)
    ensures ShortNamesDistinct(c.fieldMap, doc.dirty) ==>
      forall k :: k in doc.dirty ==>
        LongToShort(c.fieldMap, k) in Operations(c, doc).value["$set"]
        && Operations(c, doc).value["$set"][LongToShort(c.fieldMap, k)] == doc.attributes[k]
  {
    var m := DirtyAttributes(doc);
    assert m.Keys == doc.dirty;
    RenameDomain(c.fieldMap, m);
    if ShortNamesDistinct(c.fieldMap, doc.dirty) {
      forall k | k in doc.dirty
        ensures LongToShort(c.fieldMap, k) in Rename(c.fieldMap, m) && Rename(c.fieldMap, m)[LongToShort(c.fieldMap, k)] == doc.attributes[k]
      {
        RenameExact(c.fieldMap, m, k);
      }
    }
  }

  /** A key set and then unset stays dirty without an attribute, so
      `operations` raises KeyError afterwards. */
  lemma SetThenUnsetBreaksOperations(c: DocClass, doc: Doc, key: string, value: Value)
    requires value != VNone
    ensures Operations(c, Unset(c, Set(c, doc, key, value), key)) == Err(KeyError)
  {
    assert key in Unset(c, Set(c, doc, key, value), key).dirty;
  }

  /** `clear_ops()`: no pending operations and no dirty keys; the
      attributes stay as they are. */
  function ClearOps(doc: Doc): (r: Doc)
    ensures r.ops == map[] && r.dirty == {}
    ensures r.attributes == doc.attributes && r.identity == doc.identity
  {
    doc.(ops := map[], dirty := {})
  }

  /** After `clear_ops` the update holds only an empty `$set`. */
  lemma OperationsAfterClear(c: DocClass, doc: Doc)
    ensures Operations(c, ClearOps(doc)) == Ok(map["$set" := map[]])
  {
    var d := ClearOps(doc);
    assert DirtyAttributes(d) == map[];
    RenameDomain(c.fieldMap, DirtyAttributes(d));
    assert ShortNames(c.fieldMap, {}) == {};
  }

  /** The base `validate()`: ValidationError naming the required fields that
      have no attribute. */
  function ValidateRequired(c: DocClass, doc: Doc): (r: Outcome)
    ensures r.Pass? <==> c.required <= doc.attributes.Keys
    ensures r.Fail? ==>
      (r.error.ValidationError? && r.error.missing != {}
       && forall n :: n in r.error.missing <==> n in c.required && n !in doc.attributes)
  {
    var missing := c.required - doc.attributes.Keys;
    if missing != {} then Fail(ValidationError(missing))
    else
      assert c.required <= doc.attributes.Keys by {
        forall n | n in c.required ensures n in doc.attributes {
          assert n !in missing;
        }
      }
      Pass
  }
}
