/** What the two copies of the trade actions share: the reading and
    normalisation of the form, the zod schemas and their messages, and
    everything after validation. That means the ownership gates, the insert,
    the update and `deleteTrade`, which both copies spell identically. */
module TradeCommon {
  import opened Wrappers
  import opened Text
  import opened Schema
  import opened Forms

  // ---------------------------------------------------------------- built-ins

  /** A JavaScript number as `parseFloat` yields it: NaN, or a finite value. */
  datatype Number = NaN | Num(value: real)

  /** The JavaScript built-ins the actions call, which this model does not
      define. They are: `JSON.parse` of the custom values (`None` when it
      throws); `parseFloat`; `new Date(text)` as a time value (`None` for an
      Invalid Date); and `toISOString`. */
  datatype Builtins = Builtins(
    parseValues: string -> Option<map<string, CustomValue>>,
    parseNumber: string -> Number,
    parseDate: string -> Option<int>,
    isoString: int -> string)

  // ---------------------------------------------------------------- input

  /** `dataToValidate`. Absent keys are `None`. `result`, the dates and
      `profitLoss` are already normalised to `null`, and `notes` to "". */
  datatype TradeData = TradeData(
    id: Option<string>,
    strategyId: Option<string>,
    status: Option<string>,
    asset: Option<string>,
    dateOpened: Option<string>,
    dateClosed: Option<string>,
    direction: Option<string>,
    result: Option<string>,
    profitLoss: Option<Number>,
    notes: string,
    isBacktest: bool,
    customValues: map<string, CustomValue>)

  /** The profit/loss entry. When it is truthy it is trimmed; when the trimmed
      text is also truthy it goes through `parseFloat`. Anything else is `null`. */
  function NormalizeProfitLoss(raw: Option<string>, parseNumber: string -> Number): (r: Option<Number>)
    ensures r.None? <==> raw.None? || AllWhitespace(raw.value)
    ensures r.Some? ==> r.value == parseNumber(Trim(raw.value))
  {
    if Truthy(raw) then
      var t := Trim(raw.value);
      TrimEmptyIffAllWhitespace(raw.value);
      if t != "" then Some(parseNumber(t)) else None
    else
      assert raw.Some? ==> raw.value == [];
      None
  }

  /** White space around the number never changes what is parsed. */
  lemma ProfitLossIgnoresPadding(w1: string, s: string, w2: string, parseNumber: string -> Number)
    requires AllWhitespace(w1) && AllWhitespace(w2)
    ensures NormalizeProfitLoss(Some(w1 + s + w2), parseNumber) == NormalizeProfitLoss(Some(s), parseNumber)
  {
    TrimPadded(w1, s, w2);
    TrimEmptyIffAllWhitespace(w1 + s + w2);
    TrimEmptyIffAllWhitespace(s);
  }

  /** Reads the form into `dataToValidate`. The scalar keys are read as
      `Object.fromEntries` sees them. The custom values come from the first
      `customValues` entry and are parsed only when it is non-empty. With
      `withId` the trade id is read too (the update schema). */
  function ReadTradeForm(form: FormData, b: Builtins, withId: bool): (r: Result<TradeData, string>)
    ensures r.Failure? <==> Truthy(FormGet(form, "customValues")) && b.parseValues(FormGet(form, "customValues").value).None?
    ensures r.Failure? ==> r.error == "Invalid custom values data"
    ensures r.Success? ==>
              && r.value.id == (if withId then FormEntry(form, "id") else None)
              && r.value.strategyId == FormEntry(form, "strategyId")
              && r.value.status == FormEntry(form, "status")
              && r.value.asset == FormEntry(form, "asset")
              && r.value.direction == FormEntry(form, "direction")
              && r.value.dateOpened == OrNull(FormEntry(form, "dateOpened"))
              && r.value.dateClosed == OrNull(FormEntry(form, "dateClosed"))
              && r.value.result == OrNull(FormEntry(form, "result"))
              && r.value.profitLoss == NormalizeProfitLoss(FormEntry(form, "profitLoss"), b.parseNumber)
              && r.value.notes == FormEntry(form, "notes").GetOr("")
              && (r.value.isBacktest <==> FormEntry(form, "isBacktest") == Some("true"))
              && (!Truthy(FormGet(form, "customValues")) ==> r.value.customValues == map[])
  {
    var json := FormGet(form, "customValues");
    var parsed := if Truthy(json) then b.parseValues(json.value) else Some(map[]);
    if parsed.None? then Failure("Invalid custom values data")
    else Success(TradeData(
      if withId then FormEntry(form, "id") else None,
      FormEntry(form, "strategyId"),
      FormEntry(form, "status"),
      FormEntry(form, "asset"),
      OrNull(FormEntry(form, "dateOpened")),
      OrNull(FormEntry(form, "dateClosed")),
      FormEntry(form, "direction"),
      OrNull(FormEntry(form, "result")),
      NormalizeProfitLoss(FormEntry(form, "profitLoss"), b.parseNumber),
      FormEntry(form, "notes").GetOr(""),
      FormEntry(form, "isBacktest") == Some("true"),
      parsed.value))
  }

  // ---------------------------------------------------------------- schema

  /** What `createTradeSchema` lets through (with `id`, `updateTradeSchema`). */
  datatype ValidTrade = ValidTrade(
    id: Option<Id>,
    strategyId: Id,
    status: TradeStatus,
    asset: string,
    dateOpened: Option<string>,
    dateClosed: Option<string>,
    direction: Direction,
    result: Option<TradeResult>,
    profitLoss: Option<real>,
    notes: string,
    isBacktest: bool,
    customValues: map<string, CustomValue>)

  predicate UuidValid(v: Option<string>) {
    v.Some? && IsUuid(v.value)
  }

  predicate StatusValid(v: Option<string>) {
    v.Some? && ParseStatus(v.value).Some?
  }

  predicate DirectionValid(v: Option<string>) {
    v.Some? && ParseDirection(v.value).Some?
  }

  /** `result` is optional and nullable, but a present value must be one of the enum's names. */
  predicate ResultValid(v: Option<string>) {
    v.None? || ParseResult(v.value).Some?
  }

  /** `z.coerce.number()` rejects NaN before the refinement runs. `null` passes. */
  predicate ProfitLossValid(v: Option<Number>) {
    v.None? || v.value.Num?
  }

  predicate TradeValid(d: TradeData, withId: bool) {
    && UuidValid(d.strategyId)
    && StatusValid(d.status)
    && Truthy(d.asset)
    && DirectionValid(d.direction)
    && ResultValid(d.result)
    && ProfitLossValid(d.profitLoss)
    && (withId ==> UuidValid(d.id))
  }

  /** The issues of a `z.string().uuid(msg)`: "Required" when absent, `msg` when malformed. */
  function UuidIssues(v: Option<string>, msg: string): (r: seq<string>)
    ensures r == [] <==> UuidValid(v)
  {
    if v.None? then ["Required"] else if !IsUuid(v.value) then [msg] else []
  }

  /** The single issue of a schema whose error map replaces every message by `msg`. */
  function IssueUnless(ok: bool, msg: string): (r: seq<string>)
    ensures r == [] <==> ok
  {
    if ok then [] else [msg]
  }

  /** The top-level keys of `updateTradeSchema` that can fail. */
  function TradeKeys(): set<string> {
    {"strategyId", "status", "asset", "direction", "result", "profitLoss", "id"}
  }

  /** The issues zod reports under one top-level key. */
  function KeyIssues(d: TradeData, withId: bool, key: string): seq<string> {
    if key == "strategyId" then UuidIssues(d.strategyId, "Invalid strategy ID")
    else if key == "status" then IssueUnless(StatusValid(d.status), "Invalid trade status")
    else if key == "asset" then RequiredString(d.asset, "Asset is required")
    else if key == "direction" then IssueUnless(DirectionValid(d.direction), "Invalid trade direction")
    else if key == "result" then IssueUnless(ResultValid(d.result), "Invalid result")
    else if key == "profitLoss" then IssueUnless(ProfitLossValid(d.profitLoss), "Expected number, received nan")
    else if key == "id" && withId then UuidIssues(d.id, "Invalid trade ID")
    else []
  }

  /** `flatten().fieldErrors` of a failed `safeParse`: the keys that failed,
      each with zod's message. */
  function TradeErrors(d: TradeData, withId: bool): (r: FieldErrors)
    ensures forall k :: k in r <==> k in TradeKeys() && KeyIssues(d, withId, k) != []
    ensures forall k :: k in r ==> r[k] == KeyIssues(d, withId, k)
  {
    map k | k in TradeKeys() && KeyIssues(d, withId, k) != [] :: KeyIssues(d, withId, k)
  }

  /** What each key of the flattened errors says. */
  lemma TradeErrorsByKey(d: TradeData, withId: bool)
    ensures var r := TradeErrors(d, withId);
      && ("strategyId" in r <==> !UuidValid(d.strategyId))
      && ("status" in r <==> !StatusValid(d.status))
      && ("asset" in r <==> !Truthy(d.asset))
      && ("direction" in r <==> !DirectionValid(d.direction))
      && ("result" in r <==> !ResultValid(d.result))
      && ("profitLoss" in r <==> !ProfitLossValid(d.profitLoss))
      && ("id" in r <==> withId && !UuidValid(d.id))
      && r.Keys <= TradeKeys()
      && ("strategyId" in r ==> r["strategyId"] == UuidIssues(d.strategyId, "Invalid strategy ID"))
      && ("status" in r ==> r["status"] == ["Invalid trade status"])
      && ("asset" in r ==> r["asset"] == RequiredString(d.asset, "Asset is required"))
      && ("direction" in r ==> r["direction"] == ["Invalid trade direction"])
      && ("result" in r ==> r["result"] == ["Invalid result"])
      && ("profitLoss" in r ==> r["profitLoss"] == ["Expected number, received nan"])
      && ("id" in r ==> r["id"] == UuidIssues(d.id, "Invalid trade ID"))
  {
  }

  /** `safeParse`: the validated data with the enums read, or the errors. */
  function ValidateTrade(d: TradeData, withId: bool): (r: Result<ValidTrade, FieldErrors>)
    ensures r.Success? <==> TradeValid(d, withId)
    ensures r.Failure? ==> r.error == TradeErrors(d, withId)
    ensures r.Success? ==>
              && r.value.id == (if withId then d.id else None)
              && Some(r.value.strategyId) == d.strategyId
              && Some(StatusName(r.value.status)) == d.status
              && Some(r.value.asset) == d.asset && r.value.asset != ""
              && Some(DirectionName(r.value.direction)) == d.direction
              && (r.value.result.None? <==> d.result.None?)
              && (r.value.result.Some? ==> Some(ResultName(r.value.result.value)) == d.result)
              && (r.value.profitLoss.None? <==> d.profitLoss.None?)
              && (r.value.profitLoss.Some? ==> d.profitLoss == Some(Num(r.value.profitLoss.value)))
              && r.value.dateOpened == d.dateOpened && r.value.dateClosed == d.dateClosed
              && r.value.notes == d.notes && r.value.isBacktest == d.isBacktest
              && r.value.customValues == d.customValues
  {
    if TradeValid(d, withId) then
      Success(ValidTrade(
        if withId then d.id else None,
        d.strategyId.value,
        ParseStatus(d.status.value).value,
        d.asset.value,
        d.dateOpened,
        d.dateClosed,
        ParseDirection(d.direction.value).value,
        if d.result.Some? then ParseResult(d.result.value) else None,
        if d.profitLoss.Some? then Some(d.profitLoss.value.value) else None,
        d.notes,
        d.isBacktest,
        d.customValues))
    else
      Failure(TradeErrors(d, withId))
  }

  // ---------------------------------------------------------------- storage

  /** `text ? new Date(text) : null` as the database receives it. The outer
      `None` is an Invalid Date, which makes the write fail. */
  function DateColumn(text: Option<string>, parseDate: string -> Option<int>): (r: Option<Option<int>>)
    ensures !Truthy(text) ==> r == Some(None)
    ensures Truthy(text) ==> (r.None? <==> parseDate(text.value).None?)
    ensures Truthy(text) && r.Some? ==> r.value == parseDate(text.value)
  {
    if !Truthy(text) then Some(None)
    else match parseDate(text.value)
      case None => None
      case Some(t) => Some(Some(t))
  }

  /** Both date columns can be written. */
  predicate DatesWritable(v: ValidTrade, parseDate: string -> Option<int>) {
    DateColumn(v.dateOpened, parseDate).Some? && DateColumn(v.dateClosed, parseDate).Some?
  }

  /** The insert's `values`. `notes` falls back to "", `customValues` to `{}`
      (already the parse default), and the number is passed on as it is. */
  function NewTradeValues(user: UserId, v: ValidTrade, parseDate: string -> Option<int>): (tv: TradeValues)
    requires DatesWritable(v, parseDate)
    ensures tv.userId == user && tv.strategyId == v.strategyId
    ensures tv.status == Some(v.status) && tv.isBacktest == Some(v.isBacktest)
    ensures tv.profitLoss == v.profitLoss && tv.result == v.result && tv.notes == Some(v.notes)
    ensures tv.asset == v.asset && tv.direction == v.direction
    ensures tv.dateOpened == DateColumn(v.dateOpened, parseDate).value
    ensures tv.dateClosed == DateColumn(v.dateClosed, parseDate).value
    ensures tv.customValues == v.customValues
  {
    TradeValues(user, v.strategyId, Some(v.status), v.asset,
                DateColumn(v.dateOpened, parseDate).value, DateColumn(v.dateClosed, parseDate).value,
                v.direction, v.result, v.profitLoss, Some(v.notes), Some(v.isBacktest), v.customValues)
  }

  /** The insert. It is `None` when the database refuses it: an unknown user or
      strategy, a key already in use, or an Invalid Date. */
  function InsertTrade(st: Store, user: UserId, v: ValidTrade, newId: Id, parseDate: string -> Option<int>, now: int): (r: Option<(Trade, Store)>)
    ensures r.Some? <==>
              user in st.users && v.strategyId in st.strategies && newId !in st.trades && DatesWritable(v, parseDate)
    ensures r.Some? ==>
              && r.value.1 == st.(trades := st.trades[newId := r.value.0])
              && r.value.0.id == newId && r.value.0.userId == user && r.value.0.strategyId == v.strategyId
              && r.value.0.status == v.status && r.value.0.isBacktest == v.isBacktest
              && r.value.0.asset == v.asset && r.value.0.direction == v.direction
              && r.value.0.dateOpened == DateColumn(v.dateOpened, parseDate).value
              && r.value.0.dateClosed == DateColumn(v.dateClosed, parseDate).value
              && r.value.0.result == v.result && r.value.0.profitLoss == v.profitLoss
              && r.value.0.notes == Some(v.notes) && r.value.0.customValues == v.customValues
              && r.value.0.createdAt == now && r.value.0.updatedAt == now
  {
    if user !in st.users || v.strategyId !in st.strategies || newId in st.trades || !DatesWritable(v, parseDate) then None
    else
      var t := InsertedTrade(newId, NewTradeValues(user, v, parseDate), now);
      Some((t, st.(trades := st.trades[newId := t])))
  }

  /** The part of `createTrade` after validation: the ownership gate, then the
      insert. `failure` is the message of a database error, which differs
      between the two copies. */
  function ApplyCreate(st: Store, user: UserId, v: ValidTrade, newId: Id, parseDate: string -> Option<int>,
                       now: int, failure: string): (r: Step<TradeData, Trade>)
    ensures !r.reply.success ==> r.store == st && r.reply.errors.None?
    ensures !OwnsStrategy(st, user, v.strategyId) ==>
              r == Step(Fail("Strategy not found or you don't have permission to access it"), st)
    ensures OwnsStrategy(st, user, v.strategyId) && !r.reply.success ==> r == Step(Fail(failure), st)
    ensures r.reply.success <==>
              OwnsStrategy(st, user, v.strategyId) && InsertTrade(st, user, v, newId, parseDate, now).Some?
    ensures r.reply.success ==>
              && r.reply.message == "Trade logged successfully"
              && newId !in st.trades
              && newId in r.store.trades && r.reply.record == Some(r.store.trades[newId])
              && r.store == st.(trades := st.trades[newId := r.store.trades[newId]])
              && r.store.trades[newId].userId == user
              && r.store.trades[newId].strategyId == v.strategyId
              && r.store.trades[newId].isBacktest == v.isBacktest
              && r.store.trades[newId] == InsertTrade(st, user, v, newId, parseDate, now).value.0
    ensures WellFormed(st) ==> WellFormed(r.store)
    ensures WellFormed(st) && OwnersAgree(st) ==> OwnersAgree(r.store)
  {
    if !OwnsStrategy(st, user, v.strategyId) then
      Step(Fail("Strategy not found or you don't have permission to access it"), st)
    else match InsertTrade(st, user, v, newId, parseDate, now)
      case None => Step(Fail(failure), st)
      case Some((t, st')) =>
        PutTradeKeepsWellFormed(st, newId, t);
        Step(Reply(true, "Trade logged successfully", None, None, Some(t)), st')
  }

  /** The row after the update's `set`. Status, asset, dates, direction, result,
      profit/loss, notes, custom values and `updatedAt` are replaced. The key,
      the owner, the strategy, the live/backtest flag and `createdAt` are
      never named, so they stay. */
  function UpdatedTrade(t: Trade, v: ValidTrade, openedAt: Option<int>, closedAt: Option<int>, now: int): (r: Trade)
    ensures r.id == t.id && r.userId == t.userId && r.strategyId == t.strategyId
    ensures r.isBacktest == t.isBacktest && r.createdAt == t.createdAt
    ensures r.status == v.status && r.asset == v.asset && r.direction == v.direction
    ensures r.dateOpened == openedAt && r.dateClosed == closedAt
    ensures r.result == v.result && r.profitLoss == v.profitLoss && r.notes == Some(v.notes)
    ensures r.customValues == v.customValues && r.updatedAt == now
  {
    t.(status := v.status, asset := v.asset, dateOpened := openedAt, dateClosed := closedAt,
       direction := v.direction, result := v.result, profitLoss := v.profitLoss,
       notes := Some(v.notes), customValues := v.customValues, updatedAt := now)
  }

  /** The store changed in the row of trade `tid` and nowhere else. */
  predicate RewritesOnly(st: Store, st': Store, tid: Id) {
    tid in st.trades && tid in st'.trades && st' == st.(trades := st.trades[tid := st'.trades[tid]])
  }

  /** What an update never touches: the key, the owner, the strategy, the
      live/backtest partition and the creation time. */
  predicate KeepsIdentity(before: Trade, after: Trade) {
    && after.id == before.id && after.userId == before.userId && after.strategyId == before.strategyId
    && after.isBacktest == before.isBacktest && after.createdAt == before.createdAt
  }

  /** The part of `updateTrade` after validation, for the trade `tid`. It checks
      that the strategy named in the form is the caller's, then that the trade
      is the caller's, then writes. It never checks that the trade belongs to
      that strategy. */
  function ApplyUpdate(st: Store, user: UserId, tid: Id, v: ValidTrade, parseDate: string -> Option<int>,
                       now: int): (r: Step<TradeData, Trade>)
    ensures !r.reply.success ==> r.store == st && r.reply.errors.None?
    ensures !OwnsStrategy(st, user, v.strategyId) ==>
              r == Step(Fail("Strategy not found or you don't have permission to access it"), st)
    ensures OwnsStrategy(st, user, v.strategyId) && !OwnsTrade(st, user, tid) ==>
              r == Step(Fail("Trade not found or you don't have permission to update it"), st)
    ensures OwnsStrategy(st, user, v.strategyId) && OwnsTrade(st, user, tid) && !DatesWritable(v, parseDate) ==>
              r == Step(Fail("Failed to update trade. Please try again."), st)
    ensures r.reply.success <==>
              OwnsStrategy(st, user, v.strategyId) && OwnsTrade(st, user, tid) && DatesWritable(v, parseDate)
    ensures r.reply.success ==>
              && r.reply.message == "Trade updated successfully"
              && RewritesOnly(st, r.store, tid)
              && r.reply.record == Some(r.store.trades[tid])
              && KeepsIdentity(st.trades[tid], r.store.trades[tid])
              && r.store.trades[tid].status == v.status && r.store.trades[tid].asset == v.asset
              && r.store.trades[tid].result == v.result && r.store.trades[tid].profitLoss == v.profitLoss
              && r.store.trades[tid].customValues == v.customValues && r.store.trades[tid].updatedAt == now
              && r.store.trades[tid] == UpdatedTrade(st.trades[tid], v, DateColumn(v.dateOpened, parseDate).value,
                                                     DateColumn(v.dateClosed, parseDate).value, now)
    ensures WellFormed(st) ==> WellFormed(r.store)
    ensures WellFormed(st) && OwnersAgree(st) ==> OwnersAgree(r.store)
  {
    if !OwnsStrategy(st, user, v.strategyId) then
      Step(Fail("Strategy not found or you don't have permission to access it"), st)
    else if !OwnsTrade(st, user, tid) then
      Step(Fail("Trade not found or you don't have permission to update it"), st)
    else if !DatesWritable(v, parseDate) then
      Step(Fail("Failed to update trade. Please try again."), st)
    else
      var t := UpdatedTrade(st.trades[tid], v, DateColumn(v.dateOpened, parseDate).value,
                            DateColumn(v.dateClosed, parseDate).value, now);
      PutTradeKeepsWellFormed(st, tid, t);
      Step(Reply(true, "Trade updated successfully", None, None, Some(t)), st.(trades := st.trades[tid := t]))
  }

  /** `deleteTrade(id, strategyId)`, the same in both copies. There is no
      schema, so an id that is no UUID makes its lookup fail. The strategy is
      looked up first. As in the update, the trade need not belong to that
      strategy. */
  function DeleteTrade(st: Store, session: Option<UserId>, id: string, strategyId: string): (r: Step<(), ()>)
    ensures session.None? ==> r == Step(Fail("You must be logged in to delete a trade"), st)
    ensures !r.reply.success ==> r.store == st
    ensures session.Some? && !IsUuid(strategyId) ==> r == Step(Fail("Failed to delete trade. Please try again."), st)
    ensures session.Some? && IsUuid(strategyId) && !OwnsStrategy(st, session.value, strategyId) ==>
              r == Step(Fail("Strategy not found or you don't have permission to access it"), st)
    ensures session.Some? && IsUuid(strategyId) && OwnsStrategy(st, session.value, strategyId) && IsUuid(id)
            && !OwnsTrade(st, session.value, id) ==>
              r == Step(Fail("Trade not found or you don't have permission to delete it"), st)
    ensures r.reply.success <==>
              && session.Some? && IsUuid(strategyId) && IsUuid(id)
              && OwnsStrategy(st, session.value, strategyId) && OwnsTrade(st, session.value, id)
    ensures r.reply.success ==>
              && r.reply.message == "Trade deleted successfully"
              && r.store.trades.Keys == st.trades.Keys - {id}
              && (forall k :: k in r.store.trades ==> r.store.trades[k] == st.trades[k])
              && r.store.strategies == st.strategies && r.store.fields == st.fields && r.store.users == st.users
    ensures WellFormed(st) ==> WellFormed(r.store)
    ensures WellFormed(st) && OwnersAgree(st) ==> OwnersAgree(r.store)
  {
    var failed := Step(Fail("Failed to delete trade. Please try again."), st);
    if session.None? then Step(Fail("You must be logged in to delete a trade"), st)
    else if !IsUuid(strategyId) then failed
    else if !OwnsStrategy(st, session.value, strategyId) then
      Step(Fail("Strategy not found or you don't have permission to access it"), st)
    else if !IsUuid(id) then failed
    else if !OwnsTrade(st, session.value, id) then
      Step(Fail("Trade not found or you don't have permission to delete it"), st)
    else
      RemoveTradeKeepsWellFormed(st, id);
      Step(Reply(true, "Trade deleted successfully", None, None, None), RemoveTrade(st, id))
  }
}
