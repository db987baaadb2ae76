/** What the two copies of the strategy actions share: the zod schemas and
    their messages, the reading of the form, the normalisation of what gets
    stored, and `createStrategy`, which both copies spell identically. */
module StrategyCommon {
  import opened Wrappers
  import opened Schema
  import opened Forms

  // ---------------------------------------------------------------- input

  /** One element of the parsed `customFields` JSON; `None` is an absent key. */
  datatype FieldInput = FieldInput(
    id: Option<string>,
    name: Option<string>,
    fieldType: Option<string>,
    options: Option<seq<string>>,
    required: Option<bool>)

  /** `dataToValidate`: what the action hands to zod. */
  datatype StrategyData = StrategyData(
    id: Option<string>,
    name: Option<string>,
    description: Option<string>,
    instrument: Option<string>,
    customFields: seq<FieldInput>)

  /** `JSON.parse` of the `customFields` entry: `None` when it throws. Text that
      parses to something other than a list of field objects is not modelled. */
  type FieldParser = string -> Option<seq<FieldInput>>

  /** Reads the form: the scalar keys as `Object.fromEntries` sees them, the
      custom fields from the first `customFields` entry, parsed only when that
      entry is non-empty. */
  function ReadStrategyForm(form: FormData, parse: FieldParser, withId: bool): (r: Result<StrategyData, string>)
    ensures r.Failure? <==> Truthy(FormGet(form, "customFields")) && parse(FormGet(form, "customFields").value).None?
    ensures r.Failure? ==> r.error == "Invalid custom fields data"
    ensures r.Success? ==>
              && r.value.name == FormEntry(form, "name")
              && r.value.description == FormEntry(form, "description")
              && r.value.instrument == FormEntry(form, "instrument")
              && r.value.id == (if withId then FormEntry(form, "id") else None)
              && (!Truthy(FormGet(form, "customFields")) ==> r.value.customFields == [])
  {
    var json := FormGet(form, "customFields");
    var parsed := if Truthy(json) then parse(json.value) else Some([]);
    if parsed.None? then Failure("Invalid custom fields data")
    else Success(StrategyData(
      if withId then FormEntry(form, "id") else None,
      FormEntry(form, "name"),
      FormEntry(form, "description"),
      FormEntry(form, "instrument"),
      parsed.value))
  }

  // ---------------------------------------------------------------- schema

  /** A custom field that passed `customFieldSchema`. */
  datatype FieldSpec = FieldSpec(
    id: Option<string>,
    name: string,
    fieldType: FieldType,
    options: Option<seq<string>>,
    required: bool)

  /** What `createStrategySchema` lets through. The instrument is only checked to
      be non-empty; the database's enum is what rejects any other text. */
  datatype ValidStrategy = ValidStrategy(
    name: string,
    description: Option<string>,
    instrument: string,
    fields: seq<FieldSpec>)

  predicate FieldValid(f: FieldInput) {
    Truthy(f.name) && f.fieldType.Some? && ParseFieldType(f.fieldType.value).Some?
  }

  predicate StrategyValid(d: StrategyData, withId: bool) {
    && Truthy(d.name)
    && Truthy(d.instrument)
    && (forall k :: 0 <= k < |d.customFields| ==> FieldValid(d.customFields[k]))
    && (withId ==> Truthy(d.id))
  }

  /** zod's message for a `type` outside the field-type enum. */
  function InvalidFieldTypeMessage(t: string): string {
    "Invalid enum value. Expected 'text' | 'select' | 'multi-select', received '" + t + "'"
  }

  /** The issues of one field, in the order of the schema's keys. */
  function FieldIssues(f: FieldInput): (r: seq<string>)
    ensures r == [] <==> FieldValid(f)
  {
    RequiredString(f.name, "Field name is required")
    + (if f.fieldType.None? then ["Required"]
       else if ParseFieldType(f.fieldType.value).None? then [InvalidFieldTypeMessage(f.fieldType.value)]
       else [])
  }

  /** The issues of the whole list; flattening files them all under `customFields`. */
  function FieldsIssues(fs: seq<FieldInput>): (r: seq<string>)
    ensures r == [] <==> forall k :: 0 <= k < |fs| ==> FieldValid(fs[k])
  {
    if |fs| == 0 then []
    else
      var rest := FieldsIssues(fs[1..]);
      assert forall k :: 1 <= k < |fs| ==> fs[k] == fs[1..][k - 1];
      FieldIssues(fs[0]) + rest
  }

  function ToSpec(f: FieldInput): (s: FieldSpec)
    requires FieldValid(f)
    ensures s.id == f.id && s.name == f.name.value && FieldTypeName(s.fieldType) == f.fieldType.value
    ensures s.options == f.options
    ensures f.required.None? ==> !s.required
  {
    FieldSpec(f.id, f.name.value, ParseFieldType(f.fieldType.value).value, f.options, f.required.GetOr(false))
  }

  /** `createStrategySchema.safeParse` (with `withId`, `updateStrategySchema`): either
      the validated data, or the flattened field errors, which name exactly the
      keys that failed. */
  function ValidateStrategy(d: StrategyData, withId: bool): (r: Result<ValidStrategy, FieldErrors>)
    ensures r.Success? <==> StrategyValid(d, withId)
    ensures r.Failure? ==>
              && ("name" in r.error <==> !Truthy(d.name))
              && ("instrument" in r.error <==> !Truthy(d.instrument))
              && ("customFields" in r.error <==> exists k :: 0 <= k < |d.customFields| && !FieldValid(d.customFields[k]))
              && ("id" in r.error <==> withId && !Truthy(d.id))
              && r.error.Keys <= {"name", "instrument", "customFields", "id"}
    ensures r.Failure? && d.name == Some("") ==> r.error["name"] == ["Strategy name is required"]
    ensures r.Failure? && d.instrument == Some("") ==> r.error["instrument"] == ["Instrument is required"]
    ensures r.Success? ==>
              && r.value.name == d.name.value
              && r.value.description == d.description
              && r.value.instrument == d.instrument.value
              && |r.value.fields| == |d.customFields|
              && forall k :: 0 <= k < |d.customFields| ==> r.value.fields[k] == ToSpec(d.customFields[k])
  {
    if StrategyValid(d, withId) then
      Success(ValidStrategy(
        d.name.value, d.description, d.instrument.value,
        seq(|d.customFields|, k requires 0 <= k < |d.customFields| => ToSpec(d.customFields[k]))))
    else
      Failure(StrategyErrors(d, withId))
  }

  /** The issues zod collects for the strategy schema, key by key in schema order. */
  function StrategyErrors(d: StrategyData, withId: bool): (r: FieldErrors)
    ensures "name" in r <==> !Truthy(d.name)
    ensures "instrument" in r <==> !Truthy(d.instrument)
    ensures "customFields" in r <==> exists k :: 0 <= k < |d.customFields| && !FieldValid(d.customFields[k])
    ensures "id" in r <==> withId && !Truthy(d.id)
    ensures r.Keys <= {"name", "instrument", "customFields", "id"}
    ensures d.name == Some("") ==> r["name"] == ["Strategy name is required"]
    ensures d.instrument == Some("") ==> r["instrument"] == ["Instrument is required"]
  {
    var e2 := AddErrors(RequiredTextErrors(d), "customFields", FieldsIssues(d.customFields));
    if withId then AddErrors(e2, "id", RequiredString(d.id, "Strategy ID is required")) else e2
  }

  /** The issues of the two required texts, the name and the instrument. */
  function RequiredTextErrors(d: StrategyData): (r: FieldErrors)
    ensures "name" in r <==> !Truthy(d.name)
    ensures "instrument" in r <==> !Truthy(d.instrument)
    ensures r.Keys <= {"name", "instrument"}
    ensures d.name == Some("") ==> r["name"] == ["Strategy name is required"]
    ensures d.instrument == Some("") ==> r["instrument"] == ["Instrument is required"]
  {
    var e0 := AddErrors(map[], "name", RequiredString(d.name, "Strategy name is required"));
    AddErrors(e0, "instrument", RequiredString(d.instrument, "Instrument is required"))
  }

  // ---------------------------------------------------------------- storage

  /** `field.options && field.options.length > 0 ? field.options : null`. */
  function StoredOptions(o: Option<seq<string>>): (r: Option<seq<string>>)
    ensures r.Some? <==> o.Some? && |o.value| > 0
    ensures r.Some? ==> r == o
  {
    if o.Some? && |o.value| > 0 then o else None
  }

  /** The custom_field row a submitted field becomes under strategy `sid` with key `id`. */
  function FieldRow(f: FieldSpec, sid: Id, id: Id): (c: CustomField)
    ensures c.id == id && c.strategyId == sid && c.name == f.name && c.fieldType == f.fieldType
    ensures c.required == f.required
    ensures c.options.Some? ==> |c.options.value| > 0
  {
    CustomField(id, sid, f.name, f.fieldType, StoredOptions(f.options), f.required)
  }

  predicate Distinct<T(==)>(s: seq<T>) {
    forall i, j :: 0 <= i < j < |s| ==> s[i] != s[j]
  }

  function Elems(s: seq<Id>): (r: set<Id>)
    ensures forall x :: x in r <==> x in s
  {
    set x | x in s
  }

  /** A sequence without repetitions has as many distinct elements as positions. */
  lemma {:induction false} DistinctCard(s: seq<Id>)
    requires Distinct(s)
    ensures |Elems(s)| == |s|
  {
    if |s| > 0 {
      DistinctCard(s[1..]);
      assert Elems(s) == Elems(s[1..]) + {s[0]};
      assert s[0] !in Elems(s[1..]);
    }
  }

  /** The keys the database generates for `n` new custom-field rows. */
  function NewIds(genId: nat -> Id, n: nat): (r: seq<Id>)
    ensures |r| == n && forall k :: 0 <= k < n ==> r[k] == genId(k)
  {
    seq(n, k requires 0 <= k < n => genId(k))
  }

  /** The rows the fields become under strategy `sid`, keyed by `ids`. */
  function Rows(fields: seq<FieldSpec>, sid: Id, ids: seq<Id>): (r: seq<CustomField>)
    requires |ids| == |fields|
    ensures |r| == |fields|
    ensures forall k :: 0 <= k < |r| ==> r[k] == FieldRow(fields[k], sid, ids[k])
  {
    seq(|fields|, k requires 0 <= k < |fields| => FieldRow(fields[k], sid, ids[k]))
  }

  function RowIds(rows: seq<CustomField>): (r: seq<Id>)
    ensures |r| == |rows| && forall k :: 0 <= k < |r| ==> r[k] == rows[k].id
  {
    seq(|rows|, k requires 0 <= k < |rows| => rows[k].id)
  }

  /** Adds rows to the custom-field table, one key each. */
  function InsertRows(m: map<Id, CustomField>, rows: seq<CustomField>): (r: map<Id, CustomField>)
    requires Distinct(RowIds(rows))
    ensures r.Keys == m.Keys + Elems(RowIds(rows))
    ensures forall k :: 0 <= k < |rows| ==> r[rows[k].id] == rows[k]
    ensures forall id :: id in m && id !in RowIds(rows) ==> r[id] == m[id]
    decreases |rows|
  {
    if |rows| == 0 then m
    else
      assert RowIds(rows[1..]) == RowIds(rows)[1..];
      var r := InsertRows(m[rows[0].id := rows[0]], rows[1..]);
      assert forall k :: 1 <= k < |rows| ==> rows[k] == rows[1..][k - 1];
      assert rows[0].id !in RowIds(rows[1..]);
      assert Elems(RowIds(rows)) == {rows[0].id} + Elems(RowIds(rows[1..]));
      r
  }

  /** Keys that can be inserted into `m` without a primary-key violation. */
  predicate InsertableIds(m: map<Id, CustomField>, ids: seq<Id>) {
    Distinct(ids) && forall k :: 0 <= k < |ids| ==> ids[k] !in m
  }

  // ---------------------------------------------------------------- create

  function NewStrategy(id: Id, user: UserId, v: ValidStrategy, instrument: Instrument, now: int): (s: Strategy)
    ensures s.id == id && s.userId == user && s.name == v.name && s.instrument == instrument
    ensures s.description == OrNull(v.description)
    ensures s.createdAt == now && s.updatedAt == now
  {
    Strategy(id, user, v.name, OrNull(v.description), instrument, now, now)
  }

  /** The rows the create transaction writes: the strategy, then one custom field per
      submitted field, all pointing at it. */
  ghost predicate Created(st: Store, st': Store, user: UserId, v: ValidStrategy, newId: Id, genId: nat -> Id, now: int) {
    var ids := NewIds(genId, |v.fields|);
    && ParseInstrument(v.instrument).Some?
    && newId !in st.strategies
    && st'.strategies == st.strategies[newId := NewStrategy(newId, user, v, ParseInstrument(v.instrument).value, now)]
    && st'.fields.Keys == st.fields.Keys + Elems(ids)
    && (forall id :: id in st.fields ==> st'.fields[id] == st.fields[id])
    && (forall k :: 0 <= k < |v.fields| ==> st'.fields[ids[k]] == FieldRow(v.fields[k], newId, ids[k]))
    && st'.users == st.users && st'.trades == st.trades
  }

  /** The create transaction; `None` when the database refuses it (an unknown user
      or instrument, a taken name, a key that is already in use). */
  function InsertStrategy(st: Store, user: UserId, v: ValidStrategy, newId: Id, genId: nat -> Id, now: int): (r: Option<(Strategy, Store)>)
    ensures r.Some? ==> Created(st, r.value.1, user, v, newId, genId, now)
    ensures r.Some? ==> r.value.0 == r.value.1.strategies[newId]
    ensures r.Some? <==>
              && user in st.users
              && ParseInstrument(v.instrument).Some?
              && newId !in st.strategies
              && !NameTaken(st, user, v.name, None)
              && (|v.fields| > 0 ==> InsertableIds(st.fields, NewIds(genId, |v.fields|)))
  {
    var instrument := ParseInstrument(v.instrument);
    var ids := NewIds(genId, |v.fields|);
    if user !in st.users || instrument.None? || newId in st.strategies || NameTaken(st, user, v.name, None) then None
    else if |v.fields| > 0 && !InsertableIds(st.fields, ids) then None
    else
      var s := NewStrategy(newId, user, v, instrument.value, now);
      var rows := Rows(v.fields, newId, ids);
      assert RowIds(rows) == ids;
      var fields := InsertRows(st.fields, rows);
      assert forall id :: id in st.fields ==> id !in ids;
      Some((s, Store(st.users, st.strategies[newId := s], fields, st.trades)))
  }

  /** The fields of the new strategy are exactly the submitted ones: as many as were submitted. */
  lemma CreatedFieldCount(st: Store, st': Store, user: UserId, v: ValidStrategy, newId: Id, genId: nat -> Id, now: int)
    requires WellFormed(st)
    requires Created(st, st', user, v, newId, genId, now)
    requires |v.fields| > 0 ==> InsertableIds(st.fields, NewIds(genId, |v.fields|))
    ensures FieldIdsOf(st'.fields, newId) == Elems(NewIds(genId, |v.fields|))
    ensures |FieldIdsOf(st'.fields, newId)| == |v.fields|
  {
    var ids := NewIds(genId, |v.fields|);
    CreatedFieldIds(st, st', user, v, newId, genId, now);
    if |v.fields| == 0 {
      assert ids == [];
    } else {
      DistinctCard(ids);
    }
  }

  lemma CreatedFieldIds(st: Store, st': Store, user: UserId, v: ValidStrategy, newId: Id, genId: nat -> Id, now: int)
    requires WellFormed(st)
    requires Created(st, st', user, v, newId, genId, now)
    ensures FieldIdsOf(st'.fields, newId) == Elems(NewIds(genId, |v.fields|))
  {
    var ids := NewIds(genId, |v.fields|);
    forall id | id in st.fields
      ensures st'.fields[id].strategyId != newId
    {
      assert st.fields[id].strategyId in st.strategies;
    }
    forall id | id in Elems(ids)
      ensures id in st'.fields && st'.fields[id].strategyId == newId
    {
      var k :| 0 <= k < |ids| && ids[k] == id;
      assert st'.fields[ids[k]] == FieldRow(v.fields[k], newId, ids[k]);
    }
  }

  /** The create transaction keeps the database's guarantees and the owner agreement. */
  lemma CreatedKeepsWellFormed(st: Store, st': Store, user: UserId, v: ValidStrategy, newId: Id, genId: nat -> Id, now: int)
    requires WellFormed(st)
    requires Created(st, st', user, v, newId, genId, now)
    requires user in st.users && !NameTaken(st, user, v.name, None)
    ensures WellFormed(st')
    ensures OwnersAgree(st) ==> OwnersAgree(st')
  {
    var ids := NewIds(genId, |v.fields|);
    var s := st'.strategies[newId];
    forall id | id in st'.fields
      ensures st'.fields[id].id == id && st'.fields[id].strategyId in st'.strategies
    {
      if id !in st.fields {
        var k :| 0 <= k < |ids| && ids[k] == id;
      }
    }
    forall k | k in st'.strategies
      ensures st'.strategies[k].id == k && st'.strategies[k].userId in st'.users
    {
    }
    assert KeysMatch(st');
    forall k | k in st'.trades
      ensures st'.trades[k].strategyId in st'.strategies
    {
    }
    assert ReferencesResolve(st');
    forall a, b | a in st'.strategies && b in st'.strategies && a != b
        && st'.strategies[a].userId == st'.strategies[b].userId
      ensures st'.strategies[a].name != st'.strategies[b].name
    {
      if a == newId {
        assert b in st.strategies && st.strategies[b].userId == user;
      } else if b == newId {
        assert a in st.strategies && st.strategies[a].userId == user;
      }
    }
    assert NamesUnique(st');
    if OwnersAgree(st) {
      forall k | k in st'.trades
        ensures st'.trades[k].userId == st'.strategies[st'.trades[k].strategyId].userId
      {
        assert st'.trades[k] == st.trades[k];
        assert st.trades[k].strategyId != newId;
      }
    }
  }

  // ---------------------------------------------------------------- update

  /** The strategy row after the update's `set`: name, description, instrument and
      `updatedAt` change; the key, the owner and `createdAt` do not. */
  function UpdatedRow(s: Strategy, v: ValidStrategy, instrument: Instrument, now: int): (r: Strategy)
    ensures r.id == s.id && r.userId == s.userId && r.createdAt == s.createdAt
    ensures r.name == v.name && r.description == OrNull(v.description)
    ensures r.instrument == instrument && r.updatedAt == now
  {
    s.(name := v.name, description := OrNull(v.description), instrument := instrument, updatedAt := now)
  }

  /** The strategy half of the update transaction; `None` when the database refuses
      it (an unknown instrument, or a name another strategy of the owner has). */
  function UpdateStrategyRow(st: Store, sid: Id, v: ValidStrategy, now: int): (r: Option<Strategy>)
    requires sid in st.strategies
    ensures r.Some? <==> (ParseInstrument(v.instrument).Some?
                          && !NameTaken(st, st.strategies[sid].userId, v.name, Some(sid)))
    ensures r.Some? ==> r.value == UpdatedRow(st.strategies[sid], v, ParseInstrument(v.instrument).value, now)
  {
    var instrument := ParseInstrument(v.instrument);
    if instrument.None? || NameTaken(st, st.strategies[sid].userId, v.name, Some(sid)) then None
    else Some(UpdatedRow(st.strategies[sid], v, instrument.value, now))
  }

  /** The custom fields of `sid` became exactly `fields`, in order, keyed by `ids`;
      the fields of every other strategy stayed as they were. */
  ghost predicate FieldsBecome(before: map<Id, CustomField>, after: map<Id, CustomField>, sid: Id,
                               fields: seq<FieldSpec>, ids: seq<Id>) {
    && |ids| == |fields|
    && Distinct(ids)
    && FieldIdsOf(after, sid) == Elems(ids)
    && (forall k :: 0 <= k < |ids| ==> after[ids[k]] == FieldRow(fields[k], sid, ids[k]))
    && (forall id :: id in before && before[id].strategyId != sid ==> id in after && after[id] == before[id])
    && (forall id :: id in after && after[id].strategyId != sid ==> id in before && before[id] == after[id])
  }

  /** After such an update the strategy has exactly as many fields as were submitted. */
  lemma FieldsBecomeCount(before: map<Id, CustomField>, after: map<Id, CustomField>, sid: Id,
                          fields: seq<FieldSpec>, ids: seq<Id>)
    requires FieldsBecome(before, after, sid, fields, ids)
    ensures |FieldIdsOf(after, sid)| == |fields|
  {
    DistinctCard(ids);
  }

  /** Swaps in the updated strategy row and the new custom-field table; a row
      update cannot break the store's guarantees when the fields changed as
      `FieldsBecome` says. */
  function Commit(st: Store, sid: Id, row: Strategy, fields: map<Id, CustomField>): (r: Store)
    ensures r.users == st.users && r.trades == st.trades
    ensures r.strategies == st.strategies[sid := row] && r.fields == fields
  {
    Store(st.users, st.strategies[sid := row], fields, st.trades)
  }

  lemma CommitKeepsWellFormed(st: Store, sid: Id, v: ValidStrategy, now: int, fields: map<Id, CustomField>,
                              specs: seq<FieldSpec>, ids: seq<Id>)
    requires WellFormed(st) && sid in st.strategies
    requires UpdateStrategyRow(st, sid, v, now).Some?
    requires FieldsBecome(st.fields, fields, sid, specs, ids)
    requires forall id :: id in fields ==> fields[id].id == id
    ensures WellFormed(Commit(st, sid, UpdateStrategyRow(st, sid, v, now).value, fields))
    ensures OwnersAgree(st) ==> OwnersAgree(Commit(st, sid, UpdateStrategyRow(st, sid, v, now).value, fields))
  {
    var row := UpdateStrategyRow(st, sid, v, now).value;
    var r := Commit(st, sid, row, fields);
    forall id | id in r.fields
      ensures r.fields[id].strategyId in r.strategies
    {
      if r.fields[id].strategyId != sid {
        assert id in st.fields;
      }
    }
    assert KeysMatch(r);
    assert ReferencesResolve(r);
    forall a, b | a in r.strategies && b in r.strategies && a != b
        && r.strategies[a].userId == r.strategies[b].userId
      ensures r.strategies[a].name != r.strategies[b].name
    {
      if a == sid {
        assert b in st.strategies && st.strategies[b].userId == st.strategies[sid].userId;
      } else if b == sid {
        assert a in st.strategies && st.strategies[a].userId == st.strategies[sid].userId;
      }
    }
    assert NamesUnique(r);
  }

  /** What `createStrategy` does with the parsed form data `d`: it validates
      it, then inserts the strategy and its fields. */
  function CreateWithData(st: Store, user: UserId, d: StrategyData, newId: Id, genId: nat -> Id, now: int)
    : (r: Step<StrategyData, Strategy>)
    ensures !r.reply.success ==> r.store == st
    ensures !StrategyValid(d, false) ==>
              && !r.reply.success && r.reply.message == "Please fix errors in the form"
              && r.reply.errors.Some? && r.reply.data == Some(d)
    ensures StrategyValid(d, false) && InsertStrategy(st, user, ValidateStrategy(d, false).value, newId, genId, now).None? ==>
              r == Step(Fail("Failed to create strategy. Please try again."), st)
    ensures r.reply.success <==>
              StrategyValid(d, false) && InsertStrategy(st, user, ValidateStrategy(d, false).value, newId, genId, now).Some?
    ensures r.reply.success ==>
              && Created(st, r.store, user, ValidateStrategy(d, false).value, newId, genId, now)
              && r.store == InsertStrategy(st, user, ValidateStrategy(d, false).value, newId, genId, now).value.1
              && r.reply.record == Some(r.store.strategies[newId])
              && r.reply.message == "Strategy created successfully"
    ensures WellFormed(st) ==> WellFormed(r.store)
    ensures WellFormed(st) && OwnersAgree(st) ==> OwnersAgree(r.store)
  {
    match ValidateStrategy(d, false)
    case Failure(errs) => Step(Reply(false, "Please fix errors in the form", Some(errs), Some(d), None), st)
    case Success(v) =>
      var ins := InsertStrategy(st, user, v, newId, genId, now);
      if ins.None? then Step(Fail("Failed to create strategy. Please try again."), st)
      else
        InsertKeepsHelper(st, user, v, newId, genId, now);
        Step(Reply(true, "Strategy created successfully", None, None, Some(ins.value.0)), ins.value.1)
  }

  /** `createStrategy`, identical in both copies of the actions. */
  function CreateStrategy(st: Store, session: Option<UserId>, form: FormData, parse: FieldParser,
                          newId: Id, genId: nat -> Id, now: int): (r: Step<StrategyData, Strategy>)
    ensures session.None? ==> r == Step(Fail("You must be logged in to create a strategy"), st)
    ensures session.Some? && |form| == 0 ==> r == Step(Fail(""), st)
    ensures !r.reply.success ==> r.store == st
    ensures session.Some? && |form| > 0 && ReadStrategyForm(form, parse, false).Failure? ==>
              r == Step(Fail("Invalid custom fields data"), st)
    ensures session.Some? && |form| > 0 && ReadStrategyForm(form, parse, false).Success? ==>
              r == CreateWithData(st, session.value, ReadStrategyForm(form, parse, false).value, newId, genId, now)
    ensures session.Some? && |form| > 0 && ReadStrategyForm(form, parse, false).Success?
            && !StrategyValid(ReadStrategyForm(form, parse, false).value, false) ==>
              && !r.reply.success && r.reply.message == "Please fix errors in the form"
              && r.reply.errors.Some? && r.reply.data == Some(ReadStrategyForm(form, parse, false).value)
    ensures r.reply.success <==>
              && session.Some? && |form| > 0
              && ReadStrategyForm(form, parse, false).Success?
              && StrategyValid(ReadStrategyForm(form, parse, false).value, false)
              && InsertStrategy(st, session.value, ValidateStrategy(ReadStrategyForm(form, parse, false).value, false).value,
                                newId, genId, now).Some?
    ensures r.reply.success ==>
              && session.Some? && |form| > 0
              && ReadStrategyForm(form, parse, false).Success?
              && StrategyValid(ReadStrategyForm(form, parse, false).value, false)
              && Created(st, r.store, session.value, ValidateStrategy(ReadStrategyForm(form, parse, false).value, false).value,
                         newId, genId, now)
              && r.reply.record == Some(r.store.strategies[newId])
              && r.reply.message == "Strategy created successfully"
    ensures WellFormed(st) ==> WellFormed(r.store)
    ensures WellFormed(st) && OwnersAgree(st) ==> OwnersAgree(r.store)
  {
    if session.None? then Step(Fail("You must be logged in to create a strategy"), st)
    else if |form| == 0 then Step(Fail(""), st)
    else match ReadStrategyForm(form, parse, false)
      case Failure(msg) => Step(Fail(msg), st)
      case Success(d) => CreateWithData(st, session.value, d, newId, genId, now)
  }

  lemma InsertKeepsHelper(st: Store, user: UserId, v: ValidStrategy, newId: Id, genId: nat -> Id, now: int)
    requires InsertStrategy(st, user, v, newId, genId, now).Some?
    ensures WellFormed(st) ==> WellFormed(InsertStrategy(st, user, v, newId, genId, now).value.1)
    ensures WellFormed(st) && OwnersAgree(st) ==> OwnersAgree(InsertStrategy(st, user, v, newId, genId, now).value.1)
  {
    if WellFormed(st) {
      CreatedKeepsWellFormed(st, InsertStrategy(st, user, v, newId, genId, now).value.1, user, v, newId, genId, now);
    }
  }
}
