/** The strategy actions the forms use (`lib/db/actions/strategies.ts`):
    `updateStrategy` reconciles the submitted custom fields with the stored
    ones by id, and update and delete report every failure by throwing. */
module LibStrategyActions {
  import opened Wrappers
  import opened Schema
  import opened Forms
  import opened StrategyCommon

  // ---------------------------------------------------------------- reconciliation

  /** What happens to one submitted field: it rewrites the stored row `id`, or it is inserted as new. */
  datatype FieldAction = UpdateField(id: Id) | CreateField

  /** Whether the loop sends field `k` to `fieldsToUpdate`: its id is truthy, is one
      of `remaining`, and no earlier field carried it. */
  predicate Takes(fields: seq<FieldSpec>, remaining: set<Id>, k: int)
    requires 0 <= k < |fields|
  {
    && fields[k].id.Some?
    && fields[k].id.value != ""
    && fields[k].id.value in remaining
    && forall j :: 0 <= j < k ==> fields[j].id != fields[k].id
  }

  /** The `forEach` that splits the submitted fields; `remaining` is `existingFieldIds`
      as the loop finds it, and an id leaves the set once a field has claimed it. */
  function Classify(fields: seq<FieldSpec>, remaining: set<Id>): (r: seq<FieldAction>)
    ensures |r| == |fields|
    ensures forall k :: 0 <= k < |r| && r[k].UpdateField? ==> r[k].id in remaining
  {
    if |fields| == 0 then []
    else
      var f := fields[0];
      if f.id.Some? && f.id.value != "" && f.id.value in remaining then
        [UpdateField(f.id.value)] + Classify(fields[1..], remaining - {f.id.value})
      else
        [CreateField] + Classify(fields[1..], remaining)
  }

  /** `existingFieldIds` after the loop: the ids no field claimed. */
  function Leftover(fields: seq<FieldSpec>, remaining: set<Id>): (r: set<Id>)
    ensures r <= remaining
  {
    if |fields| == 0 then remaining
    else
      var f := fields[0];
      if f.id.Some? && f.id.value != "" && f.id.value in remaining then
        Leftover(fields[1..], remaining - {f.id.value})
      else
        Leftover(fields[1..], remaining)
  }

  /** A field updates a stored row exactly when it is the first to carry that
      row's id; a field without id, with an id of another strategy, or with an id
      an earlier field already claimed is created as new. */
  lemma {:induction false} ClassifyCharacterized(fields: seq<FieldSpec>, remaining: set<Id>)
    ensures forall k :: 0 <= k < |fields| ==>
              (Classify(fields, remaining)[k].UpdateField? <==> Takes(fields, remaining, k))
    ensures forall k :: 0 <= k < |fields| && Classify(fields, remaining)[k].UpdateField? ==>
              Some(Classify(fields, remaining)[k].id) == fields[k].id
  {
    if |fields| > 0 {
      var f := fields[0];
      var taken := f.id.Some? && f.id.value != "" && f.id.value in remaining;
      var rest := if taken then remaining - {f.id.value} else remaining;
      ClassifyCharacterized(fields[1..], rest);
      var r := Classify(fields, remaining);
      assert r[1..] == Classify(fields[1..], rest);
      forall k | 1 <= k < |fields|
        ensures r[k].UpdateField? <==> Takes(fields, remaining, k)
        ensures r[k].UpdateField? ==> Some(r[k].id) == fields[k].id
      {
        assert r[k] == Classify(fields[1..], rest)[k - 1];
        assert fields[k] == fields[1..][k - 1];
        if Takes(fields[1..], rest, k - 1) {
          forall j | 0 <= j < k
            ensures fields[j].id != fields[k].id
          {
            if j > 0 {
              assert fields[j] == fields[1..][j - 1];
            }
          }
        }
        if Takes(fields, remaining, k) {
          forall j | 0 <= j < k - 1
            ensures fields[1..][j].id != fields[1..][k - 1].id
          {
            assert fields[1..][j] == fields[j + 1];
          }
        }
      }
    }
  }

  /** Exactly the stored ids no submitted field carries are left over for deletion
      (the empty id, which no field can claim, aside). */
  lemma {:induction false} LeftoverCharacterized(fields: seq<FieldSpec>, remaining: set<Id>)
    ensures forall x :: x in Leftover(fields, remaining) <==>
              x in remaining && (x == "" || forall k :: 0 <= k < |fields| ==> fields[k].id != Some(x))
  {
    if |fields| > 0 {
      var f := fields[0];
      var taken := f.id.Some? && f.id.value != "" && f.id.value in remaining;
      var rest := if taken then remaining - {f.id.value} else remaining;
      LeftoverCharacterized(fields[1..], rest);
      forall x
        ensures x in Leftover(fields, remaining) <==>
                x in remaining && (x == "" || forall k :: 0 <= k < |fields| ==> fields[k].id != Some(x))
      {
        if x in remaining && x != "" && (forall k :: 0 <= k < |fields| ==> fields[k].id != Some(x)) {
          assert forall k :: 0 <= k < |fields| - 1 ==> fields[1..][k].id != Some(x) by {
            forall k | 0 <= k < |fields| - 1 ensures fields[1..][k].id != Some(x) {
              assert fields[1..][k] == fields[k + 1];
            }
          }
        }
        if x in Leftover(fields, remaining) && x != "" {
          forall k | 0 <= k < |fields|
            ensures fields[k].id != Some(x)
          {
            if k > 0 {
              assert fields[k] == fields[1..][k - 1];
            }
          }
        }
      }
    }
  }

  /** The key each submitted field ends up under: the claimed id, or a generated one. */
  function TargetIds(acts: seq<FieldAction>, genId: nat -> Id): (r: seq<Id>)
    ensures |r| == |acts|
    ensures forall k :: 0 <= k < |acts| ==> r[k] == (if acts[k].UpdateField? then acts[k].id else genId(k))
  {
    seq(|acts|, k requires 0 <= k < |acts| => if acts[k].UpdateField? then acts[k].id else genId(k))
  }

  /** The generated keys of the created fields clash neither with each other nor
      with any stored row: the insert runs before the leftovers are deleted. */
  predicate CreatesInsertable(m: map<Id, CustomField>, acts: seq<FieldAction>, genId: nat -> Id) {
    && (forall k :: 0 <= k < |acts| && acts[k].CreateField? ==> genId(k) !in m)
    && (forall i, j :: 0 <= i < j < |acts| && acts[i].CreateField? && acts[j].CreateField? ==> genId(i) != genId(j))
  }

  lemma TargetIdsDistinct(st: Store, sid: Id, fields: seq<FieldSpec>, genId: nat -> Id)
    requires CreatesInsertable(st.fields, Classify(fields, FieldIdsOf(st.fields, sid)), genId)
    ensures Distinct(TargetIds(Classify(fields, FieldIdsOf(st.fields, sid)), genId))
  {
    var existing := FieldIdsOf(st.fields, sid);
    var acts := Classify(fields, existing);
    var ids := TargetIds(acts, genId);
    ClassifyCharacterized(fields, existing);
    forall i, j | 0 <= i < j < |ids|
      ensures ids[i] != ids[j]
    {
      if acts[i].UpdateField? && acts[j].UpdateField? {
        assert Takes(fields, existing, j);
      }
    }
  }

  /** The custom-field half of the update transaction (`lib/db/actions/strategies.ts`):
      with fields submitted, update the claimed rows, insert the rest, delete the
      leftovers; with none, delete every field of the strategy. `None` when an insert
      would clash with an existing key. */
  function ReconcileFields(st: Store, sid: Id, fields: seq<FieldSpec>, genId: nat -> Id): (r: Option<map<Id, CustomField>>)
    ensures r.Some? <==> (|fields| == 0 || CreatesInsertable(st.fields, Classify(fields, FieldIdsOf(st.fields, sid)), genId))
  {
    var existing := FieldIdsOf(st.fields, sid);
    if |fields| > 0 then
      var acts := Classify(fields, existing);
      if !CreatesInsertable(st.fields, acts, genId) then None
      else
        var ids := TargetIds(acts, genId);
        TargetIdsDistinct(st, sid, fields, genId);
        var rows := Rows(fields, sid, ids);
        assert RowIds(rows) == ids;
        Some(InsertRows(st.fields - Leftover(fields, existing), rows))
    else
      Some(st.fields - existing)
  }

  /** After the reconciliation the strategy's fields are exactly the submitted ones,
      in order: a claimed id keeps its key, every other field gets a new one, and no
      other strategy's field changes. */
  lemma {:induction false} ReconcileFieldsShape(st: Store, sid: Id, fields: seq<FieldSpec>, genId: nat -> Id)
    requires ReconcileFields(st, sid, fields, genId).Some?
    ensures FieldsBecome(st.fields, ReconcileFields(st, sid, fields, genId).value, sid, fields,
                         TargetIds(Classify(fields, FieldIdsOf(st.fields, sid)), genId))
    ensures |FieldIdsOf(ReconcileFields(st, sid, fields, genId).value, sid)| == |fields|
  {
    var existing := FieldIdsOf(st.fields, sid);
    var ids := TargetIds(Classify(fields, existing), genId);
    var after := ReconcileFields(st, sid, fields, genId).value;
    if |fields| == 0 {
      assert ids == [];
      assert FieldIdsOf(after, sid) == {};
    } else {
      TargetIdsDistinct(st, sid, fields, genId);
      var rows := Rows(fields, sid, ids);
      assert RowIds(rows) == ids;
      NonEmptyShape(st.fields, sid, fields, genId, ids, rows, after);
    }
    FieldsBecomeCount(st.fields, after, sid, fields, ids);
  }

  lemma NonEmptyShape(m: map<Id, CustomField>, sid: Id, fields: seq<FieldSpec>, genId: nat -> Id,
                      ids: seq<Id>, rows: seq<CustomField>, after: map<Id, CustomField>)
    requires CreatesInsertable(m, Classify(fields, FieldIdsOf(m, sid)), genId)
    requires ids == TargetIds(Classify(fields, FieldIdsOf(m, sid)), genId)
    requires Distinct(ids) && rows == Rows(fields, sid, ids) && RowIds(rows) == ids
    requires after == InsertRows(m - Leftover(fields, FieldIdsOf(m, sid)), rows)
    ensures FieldsBecome(m, after, sid, fields, ids)
  {
    var existing := FieldIdsOf(m, sid);
    var acts := Classify(fields, existing);
    var left := Leftover(fields, existing);
    ClaimedIdsAreTargets(fields, existing, genId);
    assert forall k :: 0 <= k < |ids| ==> after[ids[k]] == FieldRow(fields[k], sid, ids[k]);
    forall id | id in after && after[id].strategyId == sid
      ensures id in Elems(ids)
    {
    }
    forall id | id in after && id in Elems(ids)
      ensures after[id].strategyId == sid
    {
      var k :| 0 <= k < |ids| && ids[k] == id;
    }
    assert FieldIdsOf(after, sid) == Elems(ids);
    forall id | id in m && m[id].strategyId != sid
      ensures id in after && after[id] == m[id]
    {
      assert id !in existing;
      assert forall k :: 0 <= k < |ids| ==> ids[k] in existing || ids[k] !in m;
    }
    forall id | id in after && after[id].strategyId != sid
      ensures id in m && m[id] == after[id]
    {
      assert id !in ids;
    }
  }

  /** Every stored id that is not left over was claimed by some field, and so is
      among the keys the submitted fields end up under. */
  lemma ClaimedIdsAreTargets(fields: seq<FieldSpec>, existing: set<Id>, genId: nat -> Id)
    ensures forall x :: x in existing && x !in Leftover(fields, existing) ==>
              x in TargetIds(Classify(fields, existing), genId)
  {
    var acts := Classify(fields, existing);
    var ids := TargetIds(acts, genId);
    LeftoverCharacterized(fields, existing);
    ClassifyCharacterized(fields, existing);
    forall x | x in existing && x !in Leftover(fields, existing)
      ensures x in ids
    {
      var k :| 0 <= k < |fields| && fields[k].id == Some(x);
      var k0 := FirstWith(fields, x, k);
      assert Takes(fields, existing, k0);
      assert ids[k0] == x;
    }
  }

  /** The first position at or before `k` whose field carries `x`. */
  function FirstWith(fields: seq<FieldSpec>, x: Id, k: int): (r: int)
    requires 0 <= k < |fields| && fields[k].id == Some(x)
    ensures 0 <= r <= k && fields[r].id == Some(x)
    ensures forall j :: 0 <= j < r ==> fields[j].id != Some(x)
  {
    if exists j :: 0 <= j < k && fields[j].id == Some(x) then
      var j :| 0 <= j < k && fields[j].id == Some(x);
      FirstWith(fields, x, j)
    else k
  }

  // ---------------------------------------------------------------- actions

  /** The transaction of `updateStrategy` once strategy `sid` is known to be
      the caller's: the row is rewritten and its fields are reconciled. */
  function WriteUpdate(st: Store, sid: Id, v: ValidStrategy, genId: nat -> Id, now: int): (r: Thrown<Strategy>)
    requires sid in st.strategies
    ensures r.Throws? ==> r == Throws(Message("Failed to update strategy. Please try again."))
    ensures r.Done? <==>
              UpdateStrategyRow(st, sid, v, now).Some? && ReconcileFields(st, sid, v.fields, genId).Some?
    ensures r.Done? ==>
              && r.store.strategies == st.strategies[sid := UpdatedRow(st.strategies[sid], v, ParseInstrument(v.instrument).value, now)]
              && r.value == r.store.strategies[sid]
              && FieldsBecome(st.fields, r.store.fields, sid, v.fields,
                              TargetIds(Classify(v.fields, FieldIdsOf(st.fields, sid)), genId))
              && r.store.trades == st.trades && r.store.users == st.users
    ensures WellFormed(st) && r.Done? ==> WellFormed(r.store)
    ensures WellFormed(st) && OwnersAgree(st) && r.Done? ==> OwnersAgree(r.store)
  {
    var row := UpdateStrategyRow(st, sid, v, now);
    var fields := ReconcileFields(st, sid, v.fields, genId);
    if row.None? || fields.None? then Throws(Message("Failed to update strategy. Please try again."))
    else
      ReconcileFieldsShape(st, sid, v.fields, genId);
      UpdateKeepsHelper(st, sid, v, now, fields.value, genId);
      Done(row.value, Commit(st, sid, row.value, fields.value))
  }

  /** The part of `updateStrategy` after validation, for strategy `sid` and the
      validated data `v`: the ownership lookup, then the transaction. */
  function ApplyUpdate(st: Store, user: UserId, sid: Id, v: ValidStrategy, genId: nat -> Id, now: int): (r: Thrown<Strategy>)
    ensures r.Throws? ==> r == Throws(Message("Failed to update strategy. Please try again."))
    ensures IsUuid(sid) && OwnsStrategy(st, user, sid) ==> r == WriteUpdate(st, sid, v, genId, now)
    ensures r.Done? <==>
              && IsUuid(sid) && OwnsStrategy(st, user, sid)
              && UpdateStrategyRow(st, sid, v, now).Some? && ReconcileFields(st, sid, v.fields, genId).Some?
    ensures r.Done? ==>
              && OwnsStrategy(st, user, sid)
              && r.store.strategies == st.strategies[sid := UpdatedRow(st.strategies[sid], v, ParseInstrument(v.instrument).value, now)]
              && r.value == r.store.strategies[sid]
              && r.value.userId == user && r.value.createdAt == st.strategies[sid].createdAt
              && r.value.name == v.name && r.value.updatedAt == now
              && FieldsBecome(st.fields, r.store.fields, sid, v.fields,
                              TargetIds(Classify(v.fields, FieldIdsOf(st.fields, sid)), genId))
              && r.store.trades == st.trades && r.store.users == st.users
    ensures WellFormed(st) && r.Done? ==> WellFormed(r.store)
    ensures WellFormed(st) && OwnersAgree(st) && r.Done? ==> OwnersAgree(r.store)
  {
    if !IsUuid(sid) || !OwnsStrategy(st, user, sid) then Throws(Message("Failed to update strategy. Please try again."))
    else WriteUpdate(st, sid, v, genId, now)
  }

  /** `updateStrategy(formData)`. Everything that fails inside the `try` — an id that
      is no UUID, a strategy of someone else, a refusal of the database — is rethrown
      as the one generic message. */
  function UpdateStrategy(st: Store, session: Option<UserId>, form: FormData, parse: FieldParser,
                          genId: nat -> Id, now: int): (r: Thrown<Strategy>)
    ensures session.None? ==> r == Throws(Message("You must be logged in to update a strategy"))
    ensures session.Some? && ReadStrategyForm(form, parse, true).Failure? ==>
              r == Throws(Message("Invalid custom fields data"))
    ensures session.Some? && ReadStrategyForm(form, parse, true).Success?
            && !StrategyValid(ReadStrategyForm(form, parse, true).value, true) ==>
              r.Throws? && r.error.ValidationFailed?
    ensures session.Some? && ReadStrategyForm(form, parse, true).Success?
            && StrategyValid(ReadStrategyForm(form, parse, true).value, true) ==>
              r == ApplyUpdate(st, session.value, ReadStrategyForm(form, parse, true).value.id.value,
                               ValidateStrategy(ReadStrategyForm(form, parse, true).value, true).value, genId, now)
    ensures session.Some? && ReadStrategyForm(form, parse, true).Success?
            && StrategyValid(ReadStrategyForm(form, parse, true).value, true)
            && !OwnsStrategy(st, session.value, ReadStrategyForm(form, parse, true).value.id.value) ==>
              r == Throws(Message("Failed to update strategy. Please try again."))
    ensures r.Done? ==>
              && session.Some?
              && ReadStrategyForm(form, parse, true).Success?
              && var d := ReadStrategyForm(form, parse, true).value;
              && var sid := d.id.value;
              && var v := ValidateStrategy(d, true).value;
              && StrategyValid(d, true) && IsUuid(sid) && OwnsStrategy(st, session.value, sid)
              && r.store.strategies == st.strategies[sid := UpdatedRow(st.strategies[sid], v, ParseInstrument(v.instrument).value, now)]
              && r.store.strategies.Keys == st.strategies.Keys
              && r.value == r.store.strategies[sid]
              && r.value.userId == session.value && r.value.createdAt == st.strategies[sid].createdAt
              && r.value.name == v.name && r.value.updatedAt == now
              && FieldsBecome(st.fields, r.store.fields, sid, v.fields,
                              TargetIds(Classify(v.fields, FieldIdsOf(st.fields, sid)), genId))
              && r.store.trades == st.trades && r.store.users == st.users
    ensures WellFormed(st) && r.Done? ==> WellFormed(r.store)
    ensures WellFormed(st) && OwnersAgree(st) && r.Done? ==> OwnersAgree(r.store)
  {
    if session.None? then Throws(Message("You must be logged in to update a strategy"))
    else match ReadStrategyForm(form, parse, true)
      case Failure(msg) => Throws(Message(msg))
      case Success(d) =>
        match ValidateStrategy(d, true)
        case Failure(errs) => Throws(ValidationFailed(errs))
        case Success(v) => ApplyUpdate(st, session.value, d.id.value, v, genId, now)
  }

  lemma UpdateKeepsHelper(st: Store, sid: Id, v: ValidStrategy, now: int, fields: map<Id, CustomField>, genId: nat -> Id)
    requires sid in st.strategies
    requires UpdateStrategyRow(st, sid, v, now).Some?
    requires FieldsBecome(st.fields, fields, sid, v.fields, TargetIds(Classify(v.fields, FieldIdsOf(st.fields, sid)), genId))
    ensures WellFormed(st) ==> WellFormed(Commit(st, sid, UpdateStrategyRow(st, sid, v, now).value, fields))
    ensures WellFormed(st) && OwnersAgree(st) ==>
              OwnersAgree(Commit(st, sid, UpdateStrategyRow(st, sid, v, now).value, fields))
  {
    if WellFormed(st) {
      var ids := TargetIds(Classify(v.fields, FieldIdsOf(st.fields, sid)), genId);
      forall id | id in fields
        ensures fields[id].id == id
      {
        if fields[id].strategyId == sid {
          var k :| 0 <= k < |ids| && ids[k] == id;
        }
      }
      CommitKeepsWellFormed(st, sid, v, now, fields, v.fields, ids);
    }
  }

  /** Submitting no custom fields deletes every field the strategy had. */
  lemma EmptyListDeletesAllFields(st: Store, sid: Id, genId: nat -> Id)
    ensures ReconcileFields(st, sid, [], genId).Some?
    ensures FieldIdsOf(ReconcileFields(st, sid, [], genId).value, sid) == {}
    ensures forall id :: id in st.fields && st.fields[id].strategyId != sid ==>
              id in ReconcileFields(st, sid, [], genId).value
  {
  }

  /** `deleteStrategy(formData)`: the id must be present and non-empty (else zod's
      issue is thrown), then the strategy must be the caller's; deleting it takes its
      fields and, through the cascade, its trades along. */
  function DeleteStrategy(st: Store, session: Option<UserId>, form: FormData): (r: Thrown<()>)
    ensures session.None? ==> r == Throws(Message("You must be logged in to delete a strategy"))
    ensures session.Some? && !Truthy(FormEntry(form, "id")) ==>
              r.Throws? && r.error.ValidationFailed? && r.error.errors.Keys == {"id"}
    ensures session.Some? && Truthy(FormEntry(form, "id")) && !OwnsStrategy(st, session.value, FormEntry(form, "id").value) ==>
              r == Throws(Message("Failed to delete strategy. Please try again."))
    ensures r.Done? <==> session.Some? && Truthy(FormEntry(form, "id")) && IsUuid(FormEntry(form, "id").value)
                         && OwnsStrategy(st, session.value, FormEntry(form, "id").value)
    ensures r.Done? ==> r.store == RemoveStrategy(st, FormEntry(form, "id").value)
                        && FormEntry(form, "id").value !in r.store.strategies
                        && FieldIdsOf(r.store.fields, FormEntry(form, "id").value) == {}
  {
    if session.None? then Throws(Message("You must be logged in to delete a strategy"))
    else
      var id := FormEntry(form, "id");
      var issues := RequiredString(id, "Strategy ID is required");
      if issues != [] then Throws(ValidationFailed(map["id" := issues]))
      else if !IsUuid(id.value) || !OwnsStrategy(st, session.value, id.value) then
        Throws(Message("Failed to delete strategy. Please try again."))
      else
        Done((), RemoveStrategy(st, id.value))
  }
}
