/** The copy of the trade actions in `lib/db/actions/trades.ts`, the one the
    trade form submits to. It validates with the schema alone: it has no
    profit/loss sign check, and it leaves the dates as submitted. */
module LibTradeActions {
  import opened Wrappers
  import opened Schema
  import opened Forms
  import opened TradeCommon

  /** What `createTrade` does with the parsed form data `d`: it validates it,
      then applies the create. */
  function CreateWithData(st: Store, user: UserId, d: TradeData, b: Builtins, newId: Id, now: int): (r: Step<TradeData, Trade>)
    ensures !TradeValid(d, false) ==>
              r == Step(Reply(false, "Please fix errors in the form", Some(TradeErrors(d, false)), Some(d), None), st)
    ensures TradeValid(d, false) ==>
              r == ApplyCreate(st, user, ValidateTrade(d, false).value, newId, b.parseDate, now,
                               "Failed to log trade. Please try again.")
  {
    match ValidateTrade(d, false)
    case Failure(errs) => Step(Reply(false, "Please fix errors in the form", Some(errs), Some(d), None), st)
    case Success(v) => ApplyCreate(st, user, v, newId, b.parseDate, now, "Failed to log trade. Please try again.")
  }

  /** What `updateTrade` does with the parsed form data `d`: it validates it,
      then applies the update to the trade the form names. */
  function UpdateWithData(st: Store, user: UserId, d: TradeData, b: Builtins, now: int): (r: Step<TradeData, Trade>)
    ensures !TradeValid(d, true) ==>
              r == Step(Reply(false, "Please fix errors in the form", Some(TradeErrors(d, true)), Some(d), None), st)
    ensures TradeValid(d, true) ==>
              && ValidateTrade(d, true).value.id.Some?
              && r == ApplyUpdate(st, user, ValidateTrade(d, true).value.id.value, ValidateTrade(d, true).value,
                                  b.parseDate, now)
  {
    match ValidateTrade(d, true)
    case Failure(errs) => Step(Reply(false, "Please fix errors in the form", Some(errs), Some(d), None), st)
    case Success(v) => ApplyUpdate(st, user, v.id.value, v, b.parseDate, now)
  }

  /** `createTrade(prevState, formData)`. */
  function CreateTrade(st: Store, session: Option<UserId>, form: FormData, b: Builtins,
                       newId: Id, now: int): (r: Step<TradeData, Trade>)
    ensures session.None? ==> r == Step(Fail("You must be logged in to create a trade"), st)
    ensures session.Some? && |form| == 0 ==> r == Step(Fail(""), st)
    ensures !r.reply.success ==> r.store == st
    ensures session.Some? && |form| > 0 && ReadTradeForm(form, b, false).Failure? ==>
              r == Step(Fail("Invalid custom values data"), st)
    ensures session.Some? && |form| > 0 && ReadTradeForm(form, b, false).Success?
            && !TradeValid(ReadTradeForm(form, b, false).value, false) ==>
              r == Step(Reply(false, "Please fix errors in the form",
                              Some(TradeErrors(ReadTradeForm(form, b, false).value, false)),
                              Some(ReadTradeForm(form, b, false).value), None), st)
    ensures r.reply.success ==>
              && session.Some? && |form| > 0
              && ReadTradeForm(form, b, false).Success?
              && TradeValid(ReadTradeForm(form, b, false).value, false)
              && OwnsStrategy(st, session.value, FormEntry(form, "strategyId").value)
              && newId !in st.trades
              && newId in r.store.trades && r.reply.record == Some(r.store.trades[newId])
              && r.store == st.(trades := st.trades[newId := r.store.trades[newId]])
              && r.store.trades[newId].userId == session.value
              && Some(r.store.trades[newId].strategyId) == FormEntry(form, "strategyId")
              && (r.store.trades[newId].isBacktest <==> FormEntry(form, "isBacktest") == Some("true"))
    ensures session.Some? && |form| > 0 && ReadTradeForm(form, b, false).Success? ==>
              r == CreateWithData(st, session.value, ReadTradeForm(form, b, false).value, b, newId, now)
    ensures WellFormed(st) ==> WellFormed(r.store)
    ensures WellFormed(st) && OwnersAgree(st) ==> OwnersAgree(r.store)
  {
    if session.None? then Step(Fail("You must be logged in to create a trade"), st)
    else if |form| == 0 then Step(Fail(""), st)
    else match ReadTradeForm(form, b, false)
      case Failure(msg) => Step(Fail(msg), st)
      case Success(d) => CreateWithData(st, session.value, d, b, newId, now)
  }

  /** `updateTrade(prevState, formData)`. It has no empty-form shortcut, so an
      empty form fails validation. */
  function UpdateTrade(st: Store, session: Option<UserId>, form: FormData, b: Builtins, now: int): (r: Step<TradeData, Trade>)
    ensures session.None? ==> r == Step(Fail("You must be logged in to update a trade"), st)
    ensures !r.reply.success ==> r.store == st
    ensures session.Some? && ReadTradeForm(form, b, true).Failure? ==>
              r == Step(Fail("Invalid custom values data"), st)
    ensures session.Some? && ReadTradeForm(form, b, true).Success?
            && !TradeValid(ReadTradeForm(form, b, true).value, true) ==>
              r == Step(Reply(false, "Please fix errors in the form",
                              Some(TradeErrors(ReadTradeForm(form, b, true).value, true)),
                              Some(ReadTradeForm(form, b, true).value), None), st)
    ensures r.reply.success ==>
              && session.Some?
              && ReadTradeForm(form, b, true).Success?
              && TradeValid(ReadTradeForm(form, b, true).value, true)
              && var tid := FormEntry(form, "id").value;
              && OwnsStrategy(st, session.value, FormEntry(form, "strategyId").value)
              && OwnsTrade(st, session.value, tid)
              && RewritesOnly(st, r.store, tid)
              && r.reply.record == Some(r.store.trades[tid])
              && KeepsIdentity(st.trades[tid], r.store.trades[tid])
              && r.store.trades[tid].updatedAt == now
    ensures session.Some? && ReadTradeForm(form, b, true).Success? ==>
              r == UpdateWithData(st, session.value, ReadTradeForm(form, b, true).value, b, now)
    ensures WellFormed(st) ==> WellFormed(r.store)
    ensures WellFormed(st) && OwnersAgree(st) ==> OwnersAgree(r.store)
  {
    if session.None? then Step(Fail("You must be logged in to update a trade"), st)
    else match ReadTradeForm(form, b, true)
      case Failure(msg) => Step(Fail(msg), st)
      case Success(d) => UpdateWithData(st, session.value, d, b, now)
  }

  /** An empty form never reaches the update: the schema reports the missing ids. */
  lemma EmptyUpdateFormFailsValidation(st: Store, user: UserId, b: Builtins, now: int)
    ensures var r := UpdateTrade(st, Some(user), [], b, now);
      && !r.reply.success && r.store == st
      && r.reply.message == "Please fix errors in the form"
      && r.reply.errors.Some?
      && "strategyId" in r.reply.errors.value && r.reply.errors.value["strategyId"] == ["Required"]
      && "id" in r.reply.errors.value && r.reply.errors.value["id"] == ["Required"]
  {
    var d := ReadTradeForm([], b, true).value;
    assert d.strategyId.None? && d.id.None?;
    TradeErrorsByKey(d, true);
  }
}
