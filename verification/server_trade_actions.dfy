/** The copy of the trade actions in `server/actions/trades.ts`. It differs from
    the other copy in three ways:
    - it converts the submitted dates with `toISOString` before validating, and
      an Invalid Date makes that call throw outside any `try`, so the action
      rejects;
    - it checks the sign of the profit/loss against the result, and merges that
      check's errors over zod's;
    - `createTrade` has no empty-form shortcut. */
module ServerTradeActions {
  import opened Wrappers
  import opened Schema
  import opened Forms
  import opened TradeCommon
  import LibTradeActions

  /** The error `toISOString` throws on an Invalid Date. */
  const InvalidTime := "Invalid time value"

  /** `text ? new Date(text).toISOString() : null`. */
  function ConvertDate(text: Option<string>, b: Builtins): (r: Result<Option<string>, string>)
    ensures !Truthy(text) ==> r == Success(None)
    ensures Truthy(text) && b.parseDate(text.value).None? ==> r == Failure(InvalidTime)
    ensures Truthy(text) && b.parseDate(text.value).Some? ==>
              r == Success(Some(b.isoString(b.parseDate(text.value).value)))
  {
    if !Truthy(text) then Success(None)
    else match b.parseDate(text.value)
      case None => Failure(InvalidTime)
      case Some(t) => Success(Some(b.isoString(t)))
  }

  /** Both dates of the form converted. The conversion throws when either one is an Invalid Date. */
  function ConvertDates(d: TradeData, b: Builtins): (r: Result<TradeData, string>)
    ensures r.Failure? <==> ConvertDate(d.dateOpened, b).Failure? || ConvertDate(d.dateClosed, b).Failure?
    ensures r.Failure? ==> r.error == InvalidTime
    ensures r.Success? ==> r.value == d.(dateOpened := ConvertDate(d.dateOpened, b).value,
                                         dateClosed := ConvertDate(d.dateClosed, b).value)
  {
    match ConvertDate(d.dateOpened, b)
    case Failure(e) => Failure(e)
    case Success(o) =>
      match ConvertDate(d.dateClosed, b)
      case Failure(e) => Failure(e)
      case Success(c) => Success(d.(dateOpened := o, dateClosed := c))
  }

  /** A win whose number is not positive, or a loss whose number is not
      negative. NaN and `null` never count, since no comparison with them
      holds. Nor does any other result. */
  predicate WrongSign(d: TradeData) {
    && d.profitLoss.Some? && d.profitLoss.value.Num?
    && ((d.result == Some("win") && d.profitLoss.value.value <= 0.0)
        || (d.result == Some("loss") && d.profitLoss.value.value >= 0.0))
  }

  /** The `errors` object of the sign check. */
  function SignErrors(d: TradeData): (r: FieldErrors)
    ensures r.Keys == (if WrongSign(d) then {"profitLoss"} else {})
    ensures WrongSign(d) && d.result == Some("win") ==> r["profitLoss"] == ["Profit must be positive for wins"]
    ensures WrongSign(d) && d.result == Some("loss") ==> r["profitLoss"] == ["Loss must be negative"]
  {
    var pl := d.profitLoss;
    var afterWin := if d.result == Some("win") && pl.Some? && pl.value.Num? && pl.value.value <= 0.0
                    then map["profitLoss" := ["Profit must be positive for wins"]] else map[];
    if d.result == Some("loss") && pl.Some? && pl.value.Num? && pl.value.value >= 0.0
    then afterWin["profitLoss" := ["Loss must be negative"]] else afterWin
  }

  /** `{ ...validationErrors, ...errors }`: a key the sign check flags takes the
      sign check's message; every other key keeps zod's. */
  function MergeErrors(schema: FieldErrors, custom: FieldErrors): (r: FieldErrors)
    ensures r.Keys == schema.Keys + custom.Keys
    ensures forall k :: k in custom ==> r[k] == custom[k]
    ensures forall k :: k in schema && k !in custom ==> r[k] == schema[k]
  {
    schema + custom
  }

  /** zod only ever flags `profitLoss` for NaN, and the sign check never fires
      on NaN, so the two never flag the same key. */
  lemma SchemaAndSignNeverClash(d: TradeData, withId: bool)
    ensures "profitLoss" in TradeErrors(d, withId) ==> !WrongSign(d)
    ensures TradeErrors(d, withId).Keys !! SignErrors(d).Keys
  {
    TradeErrorsByKey(d, withId);
  }

  /** Schema validation and the sign check together. The data passes when both
      pass. Otherwise the result is the merged errors, with zod's errors only
      when zod failed. */
  function ValidateWithSign(d: TradeData, withId: bool): (r: Result<ValidTrade, FieldErrors>)
    ensures r.Success? <==> TradeValid(d, withId) && !WrongSign(d)
    ensures r.Success? ==> r == ValidateTrade(d, withId)
    ensures r.Failure? ==>
              r.error == MergeErrors(if TradeValid(d, withId) then map[] else TradeErrors(d, withId), SignErrors(d))
    ensures r.Failure? && WrongSign(d) && d.result == Some("win") ==>
              r.error["profitLoss"] == ["Profit must be positive for wins"]
    ensures r.Failure? && WrongSign(d) && d.result == Some("loss") ==>
              r.error["profitLoss"] == ["Loss must be negative"]
    ensures r.Success? && r.value.result == Some(Win) && r.value.profitLoss.Some? ==> r.value.profitLoss.value > 0.0
    ensures r.Success? && r.value.result == Some(Loss) && r.value.profitLoss.Some? ==> r.value.profitLoss.value < 0.0
  {
    var custom := SignErrors(d);
    var parsed := ValidateTrade(d, withId);
    if parsed.Failure? || custom.Keys != {} then
      Failure(MergeErrors(if parsed.Failure? then parsed.error else map[], custom))
    else
      parsed
  }

  /** The sign check is the whole difference between the two copies'
      validation. Data the lib copy accepts but the server copy rejects is
      exactly data with the wrong sign, such as a win logged at 0. */
  lemma {:induction false} SignCheckIsTheOnlyDifference(d: TradeData, withId: bool)
    ensures ValidateWithSign(d, withId).Success? <==> ValidateTrade(d, withId).Success? && !WrongSign(d)
    ensures ValidateTrade(d, withId).Success? && ValidateWithSign(d, withId).Failure? ==>
              && WrongSign(d)
              && ValidateWithSign(d, withId).error == SignErrors(d)
              && ValidateWithSign(d, withId).error.Keys == {"profitLoss"}
  {
    if ValidateTrade(d, withId).Success? && ValidateWithSign(d, withId).Failure? {
      assert MergeErrors(map[], SignErrors(d)) == SignErrors(d);
    }
  }

  /** A trade whose sign agrees with its result: a win above zero, a loss below it. */
  predicate SignAgrees(t: Trade) {
    && (t.result == Some(Win) && t.profitLoss.Some? ==> t.profitLoss.value > 0.0)
    && (t.result == Some(Loss) && t.profitLoss.Some? ==> t.profitLoss.value < 0.0)
  }

  /** What `createTrade` does with the converted data `d`: it validates it with
      the sign check, then applies the create. */
  function CreateConverted(st: Store, user: UserId, d: TradeData, b: Builtins, newId: Id, now: int): (r: Step<TradeData, Trade>)
    ensures !r.reply.success ==> r.store == st
    ensures WrongSign(d) ==>
              && !r.reply.success && r.reply.message == "Please fix errors in the form"
              && r.reply.errors.Some? && "profitLoss" in r.reply.errors.value
    ensures WrongSign(d) && d.result == Some("win") ==>
              r.reply.errors.Some? && "profitLoss" in r.reply.errors.value
              && r.reply.errors.value["profitLoss"] == ["Profit must be positive for wins"]
    ensures WrongSign(d) && d.result == Some("loss") ==>
              r.reply.errors.Some? && "profitLoss" in r.reply.errors.value
              && r.reply.errors.value["profitLoss"] == ["Loss must be negative"]
    ensures r.reply.success ==>
              && !WrongSign(d)
              && newId !in st.trades
              && newId in r.store.trades && r.reply.record == Some(r.store.trades[newId])
              && r.store == st.(trades := st.trades[newId := r.store.trades[newId]])
              && r.store.trades[newId].userId == user
              && r.store.trades[newId].isBacktest == d.isBacktest
              && SignAgrees(r.store.trades[newId])
    ensures ValidateWithSign(d, false).Failure? ==>
              r == Step(Reply(false, "Please fix errors in the form", Some(ValidateWithSign(d, false).error), Some(d), None), st)
    ensures ValidateWithSign(d, false).Success? ==>
              r == ApplyCreate(st, user, ValidateWithSign(d, false).value, newId, b.parseDate, now,
                               "Failed to create trade. Please try again.")
    ensures WellFormed(st) ==> WellFormed(r.store)
    ensures WellFormed(st) && OwnersAgree(st) ==> OwnersAgree(r.store)
  {
    match ValidateWithSign(d, false)
    case Failure(errs) => Step(Reply(false, "Please fix errors in the form", Some(errs), Some(d), None), st)
    case Success(v) => ApplyCreate(st, user, v, newId, b.parseDate, now, "Failed to create trade. Please try again.")
  }

  /** What `updateTrade` does with the converted data `d`. */
  function UpdateConverted(st: Store, user: UserId, d: TradeData, b: Builtins, now: int): (r: Step<TradeData, Trade>)
    ensures !r.reply.success ==> r.store == st
    ensures WrongSign(d) ==>
              && !r.reply.success && r.reply.message == "Please fix errors in the form"
              && r.reply.errors.Some? && "profitLoss" in r.reply.errors.value
    ensures WrongSign(d) && d.result == Some("win") ==>
              r.reply.errors.Some? && "profitLoss" in r.reply.errors.value
              && r.reply.errors.value["profitLoss"] == ["Profit must be positive for wins"]
    ensures WrongSign(d) && d.result == Some("loss") ==>
              r.reply.errors.Some? && "profitLoss" in r.reply.errors.value
              && r.reply.errors.value["profitLoss"] == ["Loss must be negative"]
    ensures r.reply.success ==>
              && !WrongSign(d) && d.id.Some?
              && var tid := d.id.value;
              && OwnsTrade(st, user, tid)
              && RewritesOnly(st, r.store, tid)
              && r.reply.record == Some(r.store.trades[tid])
              && KeepsIdentity(st.trades[tid], r.store.trades[tid])
              && SignAgrees(r.store.trades[tid])
    ensures ValidateWithSign(d, true).Failure? ==>
              r == Step(Reply(false, "Please fix errors in the form", Some(ValidateWithSign(d, true).error), Some(d), None), st)
    ensures ValidateWithSign(d, true).Success? ==>
              && ValidateWithSign(d, true).value.id.Some?
              && r == ApplyUpdate(st, user, ValidateWithSign(d, true).value.id.value, ValidateWithSign(d, true).value,
                                  b.parseDate, now)
    ensures WellFormed(st) ==> WellFormed(r.store)
    ensures WellFormed(st) && OwnersAgree(st) ==> OwnersAgree(r.store)
  {
    match ValidateWithSign(d, true)
    case Failure(errs) => Step(Reply(false, "Please fix errors in the form", Some(errs), Some(d), None), st)
    case Success(v) => ApplyUpdate(st, user, v.id.value, v, b.parseDate, now)
  }

  /** `createTrade(prevState, formData)`: `Failure` is the Invalid Date that
      makes the action reject. */
  function CreateTrade(st: Store, session: Option<UserId>, form: FormData, b: Builtins,
                       newId: Id, now: int): (r: Result<Step<TradeData, Trade>, string>)
    ensures session.None? ==> r == Success(Step(Fail("You must be logged in to create a trade"), st))
    ensures session.Some? && ReadTradeForm(form, b, false).Failure? ==>
              r == Success(Step(Fail("Invalid custom values data"), st))
    ensures r.Failure? <==>
              && session.Some? && ReadTradeForm(form, b, false).Success?
              && ConvertDates(ReadTradeForm(form, b, false).value, b).Failure?
    ensures r.Failure? ==> r.error == InvalidTime
    ensures r.Success? && !r.value.reply.success ==> r.value.store == st
    ensures r.Success? && session.Some? && ReadTradeForm(form, b, false).Success?
            && WrongSign(ReadTradeForm(form, b, false).value) ==>
              && !r.value.reply.success && r.value.reply.message == "Please fix errors in the form"
              && r.value.reply.errors.Some? && "profitLoss" in r.value.reply.errors.value
    ensures r.Success? && r.value.reply.success ==>
              && session.Some? && ReadTradeForm(form, b, false).Success?
              && !WrongSign(ReadTradeForm(form, b, false).value)
              && newId !in st.trades
              && newId in r.value.store.trades && r.value.reply.record == Some(r.value.store.trades[newId])
              && r.value.store == st.(trades := st.trades[newId := r.value.store.trades[newId]])
              && r.value.store.trades[newId].userId == session.value
              && (r.value.store.trades[newId].isBacktest <==> FormEntry(form, "isBacktest") == Some("true"))
              && SignAgrees(r.value.store.trades[newId])
    ensures session.Some? && ReadTradeForm(form, b, false).Success?
            && ConvertDates(ReadTradeForm(form, b, false).value, b).Success? ==>
              r == Success(CreateConverted(st, session.value, ConvertDates(ReadTradeForm(form, b, false).value, b).value,
                                           b, newId, now))
    ensures r.Success? && WellFormed(st) ==> WellFormed(r.value.store)
    ensures r.Success? && WellFormed(st) && OwnersAgree(st) ==> OwnersAgree(r.value.store)
  {
    if session.None? then Success(Step(Fail("You must be logged in to create a trade"), st))
    else match ReadTradeForm(form, b, false)
      case Failure(msg) => Success(Step(Fail(msg), st))
      case Success(raw) =>
        match ConvertDates(raw, b)
        case Failure(e) => Failure(e)
        case Success(d) =>
          Success(CreateConverted(st, session.value, d, b, newId, now))
  }

  /** `updateTrade(prevState, formData)`. */
  function UpdateTrade(st: Store, session: Option<UserId>, form: FormData, b: Builtins, now: int): (r: Result<Step<TradeData, Trade>, string>)
    ensures session.None? ==> r == Success(Step(Fail("You must be logged in to update a trade"), st))
    ensures session.Some? && ReadTradeForm(form, b, true).Failure? ==>
              r == Success(Step(Fail("Invalid custom values data"), st))
    ensures r.Failure? <==>
              && session.Some? && ReadTradeForm(form, b, true).Success?
              && ConvertDates(ReadTradeForm(form, b, true).value, b).Failure?
    ensures r.Failure? ==> r.error == InvalidTime
    ensures r.Success? && !r.value.reply.success ==> r.value.store == st
    ensures r.Success? && session.Some? && ReadTradeForm(form, b, true).Success?
            && WrongSign(ReadTradeForm(form, b, true).value) ==>
              && !r.value.reply.success && r.value.reply.message == "Please fix errors in the form"
              && r.value.reply.errors.Some? && "profitLoss" in r.value.reply.errors.value
    ensures r.Success? && r.value.reply.success ==>
              && session.Some? && ReadTradeForm(form, b, true).Success?
              && !WrongSign(ReadTradeForm(form, b, true).value)
              && ReadTradeForm(form, b, true).value.id.Some?
              && var tid := ReadTradeForm(form, b, true).value.id.value;
              && OwnsTrade(st, session.value, tid)
              && RewritesOnly(st, r.value.store, tid)
              && r.value.reply.record == Some(r.value.store.trades[tid])
              && KeepsIdentity(st.trades[tid], r.value.store.trades[tid])
              && SignAgrees(r.value.store.trades[tid])
    ensures session.Some? && ReadTradeForm(form, b, true).Success?
            && ConvertDates(ReadTradeForm(form, b, true).value, b).Success? ==>
              r == Success(UpdateConverted(st, session.value, ConvertDates(ReadTradeForm(form, b, true).value, b).value,
                                           b, now))
    ensures r.Success? && WellFormed(st) ==> WellFormed(r.value.store)
    ensures r.Success? && WellFormed(st) && OwnersAgree(st) ==> OwnersAgree(r.value.store)
  {
    if session.None? then Success(Step(Fail("You must be logged in to update a trade"), st))
    else match ReadTradeForm(form, b, true)
      case Failure(msg) => Success(Step(Fail(msg), st))
      case Success(raw) =>
        match ConvertDates(raw, b)
        case Failure(e) => Failure(e)
        case Success(d) =>
          assert d.id == raw.id && d.result == raw.result && d.profitLoss == raw.profitLoss;
          Success(UpdateConverted(st, session.value, d, b, now))
  }

  /** Without the empty-form shortcut, resetting the form state reaches
      validation. It answers with field errors where the lib copy answers
      with an empty message. */
  lemma EmptyCreateFormFailsValidation(st: Store, user: UserId, b: Builtins, newId: Id, now: int)
    ensures var r := CreateTrade(st, Some(user), [], b, newId, now);
      && r.Success? && !r.value.reply.success && r.value.store == st
      && r.value.reply.message == "Please fix errors in the form"
      && r.value.reply.errors.Some? && "strategyId" in r.value.reply.errors.value
      && r.value.reply.errors.value["strategyId"] == ["Required"]
    ensures LibTradeActions.CreateTrade(st, Some(user), [], b, newId, now) == Step(Fail(""), st)
  {
    var d := ReadTradeForm([], b, false).value;
    assert d.strategyId.None? && d.dateOpened.None? && d.dateClosed.None? && d.profitLoss.None?;
    assert ConvertDates(d, b) == Success(d);
    TradeErrorsByKey(d, false);
  }
}
