/** The save and delete protocols of a Document (Document.save,
    Document.delete). The hooks a subclass overrides and the database are
    parameters: each hook may change the instance or raise, and the store
    either fails or answers.

    The protocol is written once over the four document steps it calls
    (`Steps`), so that its ordering facts are proved independently of what
    those steps compute; `Save` instantiates it with the model's own
    attribute read, validation, `operations` and `load_dict`. */
module SaveProtocol {
  import opened Errors
  import opened Values
  import opened FieldTypes
  import opened DocumentMeta
  import opened Documents
  import opened Access
  import opened Loading

  /** The hooks `save` runs. */
  datatype Hooks = Hooks(
    preSave: Doc -> Step,
    preInsert: Doc -> Step,
    preUpdate: Doc -> Step,
    postInsert: Doc -> Step,
    postUpdate: Doc -> Step,
    postSave: Doc -> Step)

  /** The database as the document sees it: whether `_dbcollection` can be
      obtained, `find_and_modify(query, update, upsert=True, new=True)`, and
      `remove(query)`. */
  datatype Store = Store(
    collection: Outcome,
    findAndModify: (Value, Update) -> Result<map<string, Value>>,
    remove: Value -> Outcome)

  /** The document's own steps that `save` calls: reading the `_id`
      attribute, the base validation, `operations()`, and `load_dict` of the
      store's answer. */
  datatype Steps = Steps(
    idOf: Doc -> Result<Value>,
    validate: Doc -> Outcome,
    operations: Doc -> Result<Update>,
    load: (Doc, map<string, Value>) -> Step)

  datatype HookName = PreSave | PreInsert | PreUpdate | PostInsert | PostUpdate | PostSave

  /** What `save` does, in order: a hook run on an instance state, the base
      validation of a state, or the one store call with its query and
      update. */
  datatype Event =
    | Hook(name: HookName, on: Doc)
    | Validated(on: Doc)
    | StoreCall(query: Value, update: Update)

  /** The instance after `save`, how `save` ended, and what it did. */
  datatype Run = Run(doc: Doc, status: Outcome, trace: seq<Event>)

  /** The steps after the store answered: reload, post-insert or
      post-update hook, clearing, post-save hook. */
  function Finish(m: Steps, d: Doc, res: map<string, Value>, isNew: bool, h: Hooks, t: seq<Event>): (r: Run)
    ensures |r.trace| >= |t| && r.trace[..|t|] == t
  {
    var l := m.load(d, res);
    if l.status.Fail? then Run(l.doc, l.status, t)
    else
      var d3 := l.doc;
      var s4 := if isNew then h.postInsert(d3) else h.postUpdate(d3);
      var t4 := t + [Hook(if isNew then PostInsert else PostUpdate, d3)];
      if s4.status.Fail? then Run(s4.doc, s4.status, t4)
      else
        var d4 := ClearOps(s4.doc);
        var s5 := h.postSave(d4);
        Run(s5.doc, s5.status, t4 + [Hook(PostSave, d4)])
  }

  /** `save()` over the steps `m`: `pre_save`; `pre_insert` when the `_id`
      attribute reads None, else `pre_update`; `validate`; the collection;
      `operations`; one `find_and_modify` upserting with the identity
      captured at the last load; the reload; `post_insert` or
      `post_update`; `clear_ops`; `post_save`. Whatever raises ends the run
      there. */
  function SaveWith(m: Steps, doc: Doc, h: Hooks, st: Store): (r: Run)
    ensures |r.trace| >= 1 && r.trace[0] == Hook(PreSave, doc)
  {
    var s1 := h.preSave(doc);
    var t1 := [Hook(PreSave, doc)];
    if s1.status.Fail? then Run(s1.doc, s1.status, t1)
    else
      var d1 := s1.doc;
      match m.idOf(d1)
      case Err(e) => Run(d1, Fail(e), t1)
      case Ok(id) =>
        var isNew := id == VNone;
        var s2 := if isNew then h.preInsert(d1) else h.preUpdate(d1);
        var t2 := t1 + [Hook(if isNew then PreInsert else PreUpdate, d1)];
        if s2.status.Fail? then Run(s2.doc, s2.status, t2)
        else Write(m, s2.doc, isNew, h, st, t2)
  }

  /** The part of `save()` after the pre-insert or pre-update hook, on the
      state `d` those hooks left: `validate`, the collection, `operations`,
      the store call, and `Finish`. */
  function Write(m: Steps, d: Doc, isNew: bool, h: Hooks, st: Store, t: seq<Event>): (r: Run)
    ensures |r.trace| > |t| && r.trace[..|t| + 1] == t + [Validated(d)]
  {
    var tv := t + [Validated(d)];
    match m.validate(d)
    case Fail(e) => Run(d, Fail(e), tv)
    case Pass =>
      if st.collection.Fail? then Run(d, st.collection, tv)
      else
        match m.operations(d)
        case Err(e) => Run(d, Fail(e), tv)
        case Ok(ops) =>
          var t3 := tv + [StoreCall(d.identity, ops)];
          match st.findAndModify(d.identity, ops)
          case Err(e) => Run(d, Fail(e), t3)
          case Ok(res) =>
            var r := Finish(m, d, res, isNew, h, t3);
            assert r.trace[..|t| + 1] == r.trace[..|t3|][..|t| + 1];
            r
  }

  /** The model's own steps; `newId` stands for the ObjectId a reloaded
      document without `_id` is given. */
  ghost function ModelSteps(c: DocClass, newId: nat): Steps {
    Steps(
      d => IdOf(c, d),
      d => ValidateRequired(c, d),
      d => Operations(c, d),
      (d, res) => LoadDict(c, d, res, newId))
  }

  /** `Document.save()`. */
  ghost function Save(c: DocClass, doc: Doc, h: Hooks, st: Store, newId: nat): Run {
    SaveWith(ModelSteps(c, newId), doc, h, st)
  }

  /** The event shapes, for stating the order of a run. */
  datatype Phase = PPreSave | PPreWrite | PValidate | PStore | PPostWrite | PPostSave

  function PhaseOf(e: Event): Phase {
    match e
    case Hook(n, _) =>
      (match n
       case PreSave => PPreSave
       case PreInsert => PPreWrite
       case PreUpdate => PPreWrite
       case PostInsert => PPostWrite
       case PostUpdate => PPostWrite
       case PostSave => PPostSave)
    case Validated(_) => PValidate
    case StoreCall(_, _) => PStore
  }

  const Protocol: seq<Phase> := [PPreSave, PPreWrite, PValidate, PStore, PPostWrite, PPostSave]

  /** A trace is a prefix of the protocol: pre-save, pre-insert/update,
      validation, store call, post-insert/update, post-save, each at most
      once. */
  predicate Follows(t: seq<Event>) {
    |t| <= |Protocol| && forall i :: 0 <= i < |t| ==> PhaseOf(t[i]) == Protocol[i]
  }

  /** The run after the store answered continues a four-event trace along
      the protocol, and its post-save hook sees a cleared instance. */
  lemma FinishFollows(m: Steps, d: Doc, res: map<string, Value>, isNew: bool, h: Hooks, t: seq<Event>)
    requires |t| == 4 && Follows(t)
    ensures var r := Finish(m, d, res, isNew, h, t);
      Follows(r.trace)
      && (|r.trace| > 4 <==> m.load(d, res).status.Pass?)
      && (|r.trace| == 6 ==> r.trace[5].on.ops == map[] && r.trace[5].on.dirty == {})
  {
    var r := Finish(m, d, res, isNew, h, t);
    var l := m.load(d, res);
    if l.status.Pass? {
      var d3 := l.doc;
      var s4 := if isNew then h.postInsert(d3) else h.postUpdate(d3);
      var t4 := t + [Hook(if isNew then PostInsert else PostUpdate, d3)];
      if s4.status.Fail? {
        assert r.trace == t4;
      } else {
        assert r.trace == t4 + [Hook(PostSave, ClearOps(s4.doc))];
      }
    }
  }

  /** Every run of the protocol over any steps follows the order; the store
      is called exactly when validation, the collection and `operations`
      all succeeded, with the validated state's identity and operations;
      a failed validation or store call ends the run on the validated
      state; the run continues past a successful store call exactly when
      the reload succeeds; the post-save hook sees a cleared instance; the
      insert path is taken exactly when the `_id` read gives None. */
  lemma {:induction false} SaveWithShape(m: Steps, doc: Doc, h: Hooks, st: Store)
    ensures var r := SaveWith(m, doc, h, st);
      var t := r.trace;
      Follows(t)
      && (|t| >= 2 ==> m.idOf(t[1].on).Ok? && (t[1].name == PreInsert <==> m.idOf(t[1].on).value == VNone))
      && (|t| >= 3 ==>
            (|t| >= 4 <==> m.validate(t[2].on).Pass? && st.collection.Pass? && m.operations(t[2].on).Ok?)
            && (|t| == 3 ==> r.doc == t[2].on && r.status.Fail?)
            && (|t| == 3 && m.validate(t[2].on).Fail? ==> r.status == m.validate(t[2].on)))
      && (|t| >= 4 ==>
            t[3].query == t[2].on.identity && m.operations(t[2].on) == Ok(t[3].update)
            && (st.findAndModify(t[3].query, t[3].update).Err? ==>
                  |t| == 4 && r.doc == t[2].on && r.status == Fail(st.findAndModify(t[3].query, t[3].update).error))
            && (st.findAndModify(t[3].query, t[3].update).Ok? ==>
                  (|t| > 4 <==> m.load(t[2].on, st.findAndModify(t[3].query, t[3].update).value).status.Pass?)))
      && (|t| == 6 ==> t[5].on.ops == map[] && t[5].on.dirty == {})
  {
    var r := SaveWith(m, doc, h, st);
    var s1 := h.preSave(doc);
    var t1 := [Hook(PreSave, doc)];
    if s1.status.Fail? {
      assert r.trace == t1;
    } else {
      var d1 := s1.doc;
      match m.idOf(d1)
      case Err(_) =>
        assert r.trace == t1;
      case Ok(id) =>
        var isNew := id == VNone;
        var s2 := if isNew then h.preInsert(d1) else h.preUpdate(d1);
        var t2 := t1 + [Hook(if isNew then PreInsert else PreUpdate, d1)];
        if s2.status.Fail? {
          assert r.trace == t2;
        } else {
          assert r == Write(m, s2.doc, isNew, h, st, t2);
          WriteShape(m, s2.doc, isNew, h, st, t2);
        }
    }
  }

  /** The shape of the run from validation on, after a two-event trace
      that follows the protocol. */
  lemma {:induction false} WriteShape(m: Steps, d: Doc, isNew: bool, h: Hooks, st: Store, t: seq<Event>)
    requires |t| == 2 && Follows(t)
    ensures var r := Write(m, d, isNew, h, st, t);
      var w := r.trace;
      Follows(w) && w[2] == Validated(d)
      && (|w| >= 4 <==> m.validate(d).Pass? && st.collection.Pass? && m.operations(d).Ok?)
      && (|w| == 3 ==> r.doc == d && r.status.Fail?)
      && (|w| == 3 && m.validate(d).Fail? ==> r.status == m.validate(d))
      && (|w| >= 4 ==>
            w[3].query == d.identity && m.operations(d) == Ok(w[3].update)
            && (st.findAndModify(w[3].query, w[3].update).Err? ==>
                  |w| == 4 && r.doc == d && r.status == Fail(st.findAndModify(w[3].query, w[3].update).error))
            && (st.findAndModify(w[3].query, w[3].update).Ok? ==>
                  (|w| > 4 <==> m.load(d, st.findAndModify(w[3].query, w[3].update).value).status.Pass?)))
      && (|w| == 6 ==> w[5].on.ops == map[] && w[5].on.dirty == {})
  {
    var r := Write(m, d, isNew, h, st, t);
    var tv := t + [Validated(d)];
    if m.validate(d).Fail? || st.collection.Fail? || m.operations(d).Err? {
      assert r.trace == tv;
    } else {
      var ops := m.operations(d).value;
      var t3 := tv + [StoreCall(d.identity, ops)];
      match st.findAndModify(d.identity, ops)
      case Err(_) =>
        assert r.trace == t3;
      case Ok(res) =>
        assert r == Finish(m, d, res, isNew, h, t3);
        FinishFollows(m, d, res, isNew, h, t3);
        assert r.trace[..4] == t3;
    }
  }

  /** Steps that read `_id` as the model's attribute access does. */
  ghost predicate ReadsIdAsModel(c: DocClass, m: Steps) {
    forall d :: m.idOf(d) == IdOf(c, d)
  }

  /** Steps that validate as the model's base `validate` does. */
  ghost predicate ValidatesAsModel(c: DocClass, m: Steps) {
    forall d :: m.validate(d) == ValidateRequired(c, d)
  }

  /** Steps whose `operations` is the model's. */
  ghost predicate OperationsAsModel(c: DocClass, m: Steps) {
    forall d :: m.operations(d) == Operations(c, d)
  }

  /** Steps that reload as the model's `load_dict` does. */
  ghost predicate LoadsAsModel(c: DocClass, newId: nat, m: Steps) {
    forall d, res :: m.load(d, res) == LoadDict(c, d, res, newId)
  }

  /** The model's own steps are all of these. */
  lemma ModelStepsAgree(c: DocClass, newId: nat)
    ensures ReadsIdAsModel(c, ModelSteps(c, newId)) && ValidatesAsModel(c, ModelSteps(c, newId))
    ensures OperationsAsModel(c, ModelSteps(c, newId)) && LoadsAsModel(c, newId, ModelSteps(c, newId))
  {
  }

  /** Every `save` follows the protocol order. */
  lemma SaveFollowsProtocol(c: DocClass, doc: Doc, h: Hooks, st: Store, newId: nat)
    ensures Follows(Save(c, doc, h, st, newId).trace)
  {
    SaveWithShape(ModelSteps(c, newId), doc, h, st);
  }

  /** The store is called only after validation passed, with the identity of
      the validated state as the query and that state's operations as the
      update; and it is called whenever validation passed, the collection is
      available and the operations did not raise. */
  lemma StoreCallAfterValidation(c: DocClass, m: Steps, doc: Doc, h: Hooks, st: Store)
    requires ValidatesAsModel(c, m)
    ensures var t := SaveWith(m, doc, h, st).trace;
      forall i :: 0 <= i < |t| && t[i].StoreCall? ==>
        i == 3 && t[2].Validated? && ValidateRequired(c, t[2].on).Pass? && st.collection.Pass?
        && t[i].query == t[2].on.identity && m.operations(t[2].on) == Ok(t[i].update)
    ensures var t := SaveWith(m, doc, h, st).trace;
      |t| >= 3 && ValidateRequired(c, t[2].on).Pass? && st.collection.Pass? && m.operations(t[2].on).Ok? ==>
        |t| >= 4 && t[3].StoreCall?
  {
    SaveWithShape(m, doc, h, st);
    var t := SaveWith(m, doc, h, st).trace;
    forall i | 0 <= i < |t| && t[i].StoreCall?
      ensures i == 3 && t[2].Validated?
    {
      assert PhaseOf(t[i]) == Protocol[i];
      assert PhaseOf(t[2]) == Protocol[2];
    }
    if |t| >= 4 {
      assert PhaseOf(t[3]) == Protocol[3];
    }
  }

  /** A failed validation ends the run with the ValidationError before any
      store call, leaving the instance as the hooks left it. */
  lemma ValidationFailureStopsSave(c: DocClass, m: Steps, doc: Doc, h: Hooks, st: Store)
    requires ValidatesAsModel(c, m)
    ensures var r := SaveWith(m, doc, h, st);
      |r.trace| >= 3 && ValidateRequired(c, r.trace[2].on).Fail? ==>
        |r.trace| == 3 && r.status == ValidateRequired(c, r.trace[2].on) && r.doc == r.trace[2].on
        && r.status.error.ValidationError?
  {
    SaveWithShape(m, doc, h, st);
  }

  /** When the store call fails, the instance keeps its attributes, dirty
      keys and pending operations: nothing is lost. */
  lemma StoreFailureKeepsPending(m: Steps, doc: Doc, h: Hooks, st: Store)
    ensures var r := SaveWith(m, doc, h, st);
      |r.trace| >= 4 && st.findAndModify(r.trace[3].query, r.trace[3].update).Err? ==>
        |r.trace| == 4 && r.doc == r.trace[2].on && r.status == Fail(st.findAndModify(r.trace[3].query, r.trace[3].update).error)
  {
    SaveWithShape(m, doc, h, st);
  }

  /** After a successful store call the run goes on past the reload exactly
      when the reload succeeds, which for the model's `load_dict` is when
      `identity()` succeeds on the reloaded state. */
  lemma FinishExtends(m: Steps, doc: Doc, h: Hooks, st: Store)
    ensures var r := SaveWith(m, doc, h, st);
      |r.trace| >= 4 && st.findAndModify(r.trace[3].query, r.trace[3].update).Ok? ==>
        (|r.trace| > 4 <==> m.load(r.trace[2].on, st.findAndModify(r.trace[3].query, r.trace[3].update).value).status.Pass?)
  {
    SaveWithShape(m, doc, h, st);
  }

  /** The post-save hook sees the instance with no pending operations and no
      dirty keys: `clear_ops` runs after the round trip and before it. */
  lemma ClearedBeforePostSave(m: Steps, doc: Doc, h: Hooks, st: Store)
    ensures var t := SaveWith(m, doc, h, st).trace;
      forall i :: 0 <= i < |t| && t[i].Hook? && t[i].name == PostSave ==> t[i].on.ops == map[] && t[i].on.dirty == {}
  {
    SaveWithShape(m, doc, h, st);
    var t := SaveWith(m, doc, h, st).trace;
    forall i | 0 <= i < |t| && t[i].Hook? && t[i].name == PostSave
      ensures t[i].on.ops == map[] && t[i].on.dirty == {}
    {
      assert PhaseOf(t[i]) == Protocol[i];
    }
  }

  /** An instance whose `_id` attribute reads None takes the insert path,
      any other the update path. */
  lemma InsertExactlyWhenNew(c: DocClass, m: Steps, doc: Doc, h: Hooks, st: Store)
    requires ReadsIdAsModel(c, m)
    ensures var t := SaveWith(m, doc, h, st).trace;
      |t| >= 2 ==>
        (IdOf(c, t[1].on).Ok?
         && (t[1].name == PreInsert <==> IdOf(c, t[1].on).value == VNone))
  {
    SaveWithShape(m, doc, h, st);
  }

  /** `delete()`: AssertionError unless the `_id` attribute is truthy (an
      unsaved document), then the collection and `remove({'_id': id})`;
      True once removed. */
  ghost function Delete(c: DocClass, doc: Doc, st: Store): (r: Result<bool>)
    ensures r.Ok? ==> r.value
    ensures r.Ok? <==>
      (IdOf(c, doc).Ok? && Truthy(IdOf(c, doc).value)
       && st.collection.Pass? && st.remove(VDict(map["_id" := IdOf(c, doc).value])).Pass?)
    ensures IdOf(c, doc).Ok? && !Truthy(IdOf(c, doc).value) ==> r == Err(AssertionError)
  {
    var id :- IdOf(c, doc);
    if !Truthy(id) then Err(AssertionError)
    else if st.collection.Fail? then Err(st.collection.error)
    else
      match st.remove(VDict(map["_id" := id]))
      case Fail(e) => Err(e)
      case Pass => Ok(true)
  }
}
