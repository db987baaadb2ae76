/** The second copy of the strategy actions (`server/actions/strategies.ts`):
    every outcome is a returned reply, `updateStrategy` deletes all custom
    fields of the strategy and inserts the submitted list afresh, and
    `deleteStrategy` takes the id as a plain argument. */
module ServerStrategyActions {
  import opened Wrappers
  import opened Schema
  import opened Forms
  import opened StrategyCommon
  import LibStrategyActions

  /** The custom-field half of the update transaction: delete every field of `sid`,
      then insert one new row per submitted field. `None` when a generated key clashes
      with a row that survived the delete, or with another generated key. */
  function ReplaceFields(st: Store, sid: Id, fields: seq<FieldSpec>, genId: nat -> Id): (r: Option<map<Id, CustomField>>)
    ensures r.Some? <==> (|fields| == 0 || InsertableIds(st.fields - FieldIdsOf(st.fields, sid), NewIds(genId, |fields|)))
  {
    var kept := st.fields - FieldIdsOf(st.fields, sid);
    if |fields| > 0 then
      var ids := NewIds(genId, |fields|);
      if !InsertableIds(kept, ids) then None
      else
        var rows := Rows(fields, sid, ids);
        assert RowIds(rows) == ids;
        Some(InsertRows(kept, rows))
    else
      Some(kept)
  }

  /** After the replacement the strategy's fields are exactly the submitted list, in
      order, every one under a newly generated key; an empty list leaves none. */
  lemma ReplaceFieldsShape(st: Store, sid: Id, fields: seq<FieldSpec>, genId: nat -> Id)
    requires ReplaceFields(st, sid, fields, genId).Some?
    ensures FieldsBecome(st.fields, ReplaceFields(st, sid, fields, genId).value, sid, fields, NewIds(genId, |fields|))
    ensures |FieldIdsOf(ReplaceFields(st, sid, fields, genId).value, sid)| == |fields|
    ensures |fields| == 0 ==> FieldIdsOf(ReplaceFields(st, sid, fields, genId).value, sid) == {}
  {
    var ids := NewIds(genId, |fields|);
    var after := ReplaceFields(st, sid, fields, genId).value;
    if |fields| == 0 {
      assert ids == [];
      assert FieldIdsOf(after, sid) == {};
    } else {
      InsertedFieldsBecome(st, sid, fields, genId);
    }
    FieldsBecomeCount(st.fields, after, sid, fields, ids);
  }

  lemma InsertedFieldsBecome(st: Store, sid: Id, fields: seq<FieldSpec>, genId: nat -> Id)
    requires |fields| > 0 && ReplaceFields(st, sid, fields, genId).Some?
    ensures FieldsBecome(st.fields, ReplaceFields(st, sid, fields, genId).value, sid, fields, NewIds(genId, |fields|))
  {
    var kept := st.fields - FieldIdsOf(st.fields, sid);
    var ids := NewIds(genId, |fields|);
    var after := ReplaceFields(st, sid, fields, genId).value;
    var rows := Rows(fields, sid, ids);
    assert RowIds(rows) == ids;
    assert after == InsertRows(kept, rows);
    forall id | id in after && id in Elems(ids)
      ensures after[id].strategyId == sid
    {
      var k :| 0 <= k < |ids| && ids[k] == id;
    }
    assert FieldIdsOf(after, sid) == Elems(ids);
  }

  lemma UpdateKeepsHelper(st: Store, sid: Id, v: ValidStrategy, now: int, fields: map<Id, CustomField>, genId: nat -> Id)
    requires sid in st.strategies
    requires UpdateStrategyRow(st, sid, v, now).Some?
    requires FieldsBecome(st.fields, fields, sid, v.fields, NewIds(genId, |v.fields|))
    ensures WellFormed(st) ==> WellFormed(Commit(st, sid, UpdateStrategyRow(st, sid, v, now).value, fields))
    ensures WellFormed(st) && OwnersAgree(st) ==>
              OwnersAgree(Commit(st, sid, UpdateStrategyRow(st, sid, v, now).value, fields))
  {
    if WellFormed(st) {
      var ids := NewIds(genId, |v.fields|);
      forall id | id in fields
        ensures fields[id].id == id
      {
        if fields[id].strategyId == sid {
          var k :| 0 <= k < |ids| && ids[k] == id;
        }
      }
      CommitKeepsWellFormed(st, sid, v, now, fields, v.fields, ids);
    }
  }

  /** The transaction of `updateStrategy` once strategy `sid` is known to be
      the caller's: the row is rewritten and its fields are replaced. */
  function WriteUpdate(st: Store, sid: Id, v: ValidStrategy, genId: nat -> Id, now: int): (r: Step<StrategyData, Strategy>)
    requires sid in st.strategies
    ensures !r.reply.success ==> r == Step(Fail("Failed to update strategy. Please try again."), st)
    ensures r.reply.success <==>
              UpdateStrategyRow(st, sid, v, now).Some? && ReplaceFields(st, sid, v.fields, genId).Some?
    ensures r.reply.success ==>
              && r.reply.message == "Strategy updated successfully"
              && r.store.strategies == st.strategies[sid := UpdatedRow(st.strategies[sid], v, ParseInstrument(v.instrument).value, now)]
              && r.reply.record == Some(r.store.strategies[sid])
              && FieldsBecome(st.fields, r.store.fields, sid, v.fields, NewIds(genId, |v.fields|))
              && r.store.trades == st.trades && r.store.users == st.users
    ensures WellFormed(st) ==> WellFormed(r.store)
    ensures WellFormed(st) && OwnersAgree(st) ==> OwnersAgree(r.store)
  {
    var row := UpdateStrategyRow(st, sid, v, now);
    var fields := ReplaceFields(st, sid, v.fields, genId);
    if row.None? || fields.None? then Step(Fail("Failed to update strategy. Please try again."), st)
    else
      ReplaceFieldsShape(st, sid, v.fields, genId);
      UpdateKeepsHelper(st, sid, v, now, fields.value, genId);
      Step(Reply(true, "Strategy updated successfully", None, None, Some(row.value)),
           Commit(st, sid, row.value, fields.value))
  }

  /** The part of `updateStrategy` after validation: the ownership lookup and the
      transaction, for strategy `sid` and the validated data `v`. */
  function ApplyUpdate(st: Store, user: UserId, sid: Id, v: ValidStrategy, genId: nat -> Id, now: int): (r: Step<StrategyData, Strategy>)
    ensures !r.reply.success ==> r.store == st && r.reply.errors.None?
    ensures !IsUuid(sid) ==> r == Step(Fail("Failed to update strategy. Please try again."), st)
    ensures IsUuid(sid) && !OwnsStrategy(st, user, sid) ==>
              r == Step(Fail("Strategy not found or you don't have permission to update it"), st)
    ensures IsUuid(sid) && OwnsStrategy(st, user, sid) ==> r == WriteUpdate(st, sid, v, genId, now)
    ensures IsUuid(sid) && OwnsStrategy(st, user, sid) && !r.reply.success ==>
              r == Step(Fail("Failed to update strategy. Please try again."), st)
    ensures r.reply.success <==>
              && IsUuid(sid) && OwnsStrategy(st, user, sid)
              && UpdateStrategyRow(st, sid, v, now).Some? && ReplaceFields(st, sid, v.fields, genId).Some?
    ensures r.reply.success ==>
              && OwnsStrategy(st, user, sid)
              && r.store.strategies == st.strategies[sid := UpdatedRow(st.strategies[sid], v, ParseInstrument(v.instrument).value, now)]
              && r.reply.message == "Strategy updated successfully"
              && r.store.strategies.Keys == st.strategies.Keys
              && r.reply.record == Some(r.store.strategies[sid])
              && r.store.strategies[sid].userId == user
              && r.store.strategies[sid].createdAt == st.strategies[sid].createdAt
              && r.store.strategies[sid].name == v.name && r.store.strategies[sid].updatedAt == now
              && FieldsBecome(st.fields, r.store.fields, sid, v.fields, NewIds(genId, |v.fields|))
              && r.store.trades == st.trades && r.store.users == st.users
    ensures WellFormed(st) ==> WellFormed(r.store)
    ensures WellFormed(st) && OwnersAgree(st) ==> OwnersAgree(r.store)
  {
    if !IsUuid(sid) then Step(Fail("Failed to update strategy. Please try again."), st)
    else if !OwnsStrategy(st, user, sid) then
      Step(Fail("Strategy not found or you don't have permission to update it"), st)
    else WriteUpdate(st, sid, v, genId, now)
  }

  /** `updateStrategy(prevState, formData)`. Unlike `createStrategy` it has no
      empty-form shortcut. */
  function UpdateStrategy(st: Store, session: Option<UserId>, form: FormData, parse: FieldParser,
                          genId: nat -> Id, now: int): (r: Step<StrategyData, Strategy>)
    ensures session.None? ==> r == Step(Fail("You must be logged in to update a strategy"), st)
    ensures !r.reply.success ==> r.store == st
    ensures session.Some? && ReadStrategyForm(form, parse, true).Failure? ==>
              r == Step(Fail("Invalid custom fields data"), st)
    ensures session.Some? && ReadStrategyForm(form, parse, true).Success?
            && !StrategyValid(ReadStrategyForm(form, parse, true).value, true) ==>
              && !r.reply.success && r.reply.message == "Please fix errors in the form"
              && r.reply.errors.Some? && r.reply.data == Some(ReadStrategyForm(form, parse, true).value)
    ensures session.Some? && ReadStrategyForm(form, parse, true).Success?
            && StrategyValid(ReadStrategyForm(form, parse, true).value, true) ==>
              r == ApplyUpdate(st, session.value, ReadStrategyForm(form, parse, true).value.id.value,
                               ValidateStrategy(ReadStrategyForm(form, parse, true).value, true).value, genId, now)
    ensures WellFormed(st) ==> WellFormed(r.store)
    ensures WellFormed(st) && OwnersAgree(st) ==> OwnersAgree(r.store)
  {
    if session.None? then Step(Fail("You must be logged in to update a strategy"), st)
    else match ReadStrategyForm(form, parse, true)
      case Failure(msg) => Step(Fail(msg), st)
      case Success(d) => UpdateWithData(st, session.value, d, genId, now)
  }

  /** `updateStrategy` once the form has been read into `d`: validation, then the update. */
  function UpdateWithData(st: Store, user: UserId, d: StrategyData, genId: nat -> Id, now: int): (r: Step<StrategyData, Strategy>)
    ensures !r.reply.success ==> r.store == st
    ensures !StrategyValid(d, true) ==>
              && !r.reply.success && r.reply.message == "Please fix errors in the form"
              && r.reply.errors.Some? && r.reply.data == Some(d)
    ensures StrategyValid(d, true) ==> r == ApplyUpdate(st, user, d.id.value, ValidateStrategy(d, true).value, genId, now)
    ensures WellFormed(st) ==> WellFormed(r.store)
    ensures WellFormed(st) && OwnersAgree(st) ==> OwnersAgree(r.store)
  {
    match ValidateStrategy(d, true)
    case Failure(errs) => Step(Reply(false, "Please fix errors in the form", Some(errs), Some(d), None), st)
    case Success(v) => ApplyUpdate(st, user, d.id.value, v, genId, now)
  }

  /** `deleteStrategy(id)`: no schema; an id that is no UUID makes the lookup fail. */
  function DeleteStrategy(st: Store, session: Option<UserId>, id: string): (r: Step<(), ()>)
    ensures session.None? ==> r == Step(Fail("You must be logged in to delete a strategy"), st)
    ensures !r.reply.success ==> r.store == st
    ensures session.Some? && IsUuid(id) && !OwnsStrategy(st, session.value, id) ==>
              r == Step(Fail("Strategy not found or you don't have permission to delete it"), st)
    ensures session.Some? && !IsUuid(id) ==> r == Step(Fail("Failed to delete strategy. Please try again."), st)
    ensures r.reply.success <==> session.Some? && IsUuid(id) && OwnsStrategy(st, session.value, id)
    ensures r.reply.success ==> r.store == RemoveStrategy(st, id) && r.reply.message == "Strategy deleted successfully"
  {
    if session.None? then Step(Fail("You must be logged in to delete a strategy"), st)
    else if !IsUuid(id) then Step(Fail("Failed to delete strategy. Please try again."), st)
    else if !OwnsStrategy(st, session.value, id) then
      Step(Fail("Strategy not found or you don't have permission to delete it"), st)
    else
      Step(Reply(true, "Strategy deleted successfully", None, None, None), RemoveStrategy(st, id))
  }

  /** The two copies of `updateStrategy` agree on everything but the keys: both leave
      the strategy with exactly the submitted fields, in order, and leave the fields
      of every other strategy alone. The copy in
      `lib/db/actions` keeps the key of every field it could match, this one
      generates new keys for all. */
  lemma CopiesAgreeUpToKeys(st: Store, sid: Id, fields: seq<FieldSpec>, genId: nat -> Id)
    requires ReplaceFields(st, sid, fields, genId).Some?
    requires LibStrategyActions.ReconcileFields(st, sid, fields, genId).Some?
    ensures var a := ReplaceFields(st, sid, fields, genId).value;
            var b := LibStrategyActions.ReconcileFields(st, sid, fields, genId).value;
            && FieldsBecome(st.fields, a, sid, fields, NewIds(genId, |fields|))
            && FieldsBecome(st.fields, b, sid, fields,
                            LibStrategyActions.TargetIds(LibStrategyActions.Classify(fields, FieldIdsOf(st.fields, sid)), genId))
            && |FieldIdsOf(a, sid)| == |FieldIdsOf(b, sid)| == |fields|
            && (forall id :: id in a && a[id].strategyId != sid ==> id in b && b[id] == a[id])
            && (forall id :: id in b && b[id].strategyId != sid ==> id in a && a[id] == b[id])
  {
    ReplaceFieldsShape(st, sid, fields, genId);
    LibStrategyActions.ReconcileFieldsShape(st, sid, fields, genId);
  }
}
