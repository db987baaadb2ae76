/** The logic inside the trade form component (`TradeForm`):
    - how the trade dates follow the chosen status;
    - how a typed profit/loss gets its sign fixed to the chosen result;
    - how custom-field values are kept;
    - how each custom field's element id is formed;
    - what the form adds to the submitted entries. */
module TradeFormUi {
  import opened Wrappers
  import opened Text
  import opened Schema
  import opened Forms
  import opened Slugs
  import opened TradeCommon
  import ServerTradeActions

  // ---------------------------------------------------------------- status → dates

  /** The two date pickers; `None` is an unset picker. */
  datatype DatePickers = DatePickers(dateOpened: Option<int>, dateClosed: Option<int>)

  /** What the status asks of the dates: a placed order has not opened yet, any
      other status has an opening date, and only a closed trade has a closing date. */
  predicate DatesFitStatus(status: Option<TradeStatus>, d: DatePickers) {
    && (status == Some(OrderPlaced) <==> d.dateOpened.None?)
    && (status != Some(Closed) ==> d.dateClosed.None?)
  }

  /** The effect that runs when the status (or the opening date) changes. An
      unset status is not `order_placed` and not `closed`. */
  function SyncDates(status: Option<TradeStatus>, d: DatePickers, now: int): (r: DatePickers)
    ensures DatesFitStatus(status, r)
    ensures status != Some(OrderPlaced) && d.dateOpened.Some? ==> r.dateOpened == d.dateOpened
    ensures status != Some(OrderPlaced) && d.dateOpened.None? ==> r.dateOpened == Some(now)
    ensures status == Some(Closed) ==> r.dateClosed == d.dateClosed
  {
    var openedAt := if status == Some(OrderPlaced) then None
                  else if d.dateOpened.None? then Some(now)
                  else d.dateOpened;
    var closedAt := if status != Some(Closed) then None else d.dateClosed;
    DatePickers(openedAt, closedAt)
  }

  /** Dates that already fit the status are left alone. */
  lemma SyncKeepsFittingDates(status: Option<TradeStatus>, d: DatePickers, now: int)
    requires DatesFitStatus(status, d)
    ensures SyncDates(status, d, now) == d
  {
  }

  /** The effect depends on the opening date it sets, so it runs again; the
      second run, at whatever time, changes nothing. */
  lemma SyncDatesSettles(status: Option<TradeStatus>, d: DatePickers, now: int, later: int)
    ensures SyncDates(status, SyncDates(status, d, now), later) == SyncDates(status, d, now)
  {
    SyncKeepsFittingDates(status, SyncDates(status, d, now), later);
  }

  // ---------------------------------------------------------------- profit/loss sign

  function Abs(x: real): (r: real)
    ensures r >= 0.0 && (r == x || r == -x)
  {
    if x < 0.0 then -x else x
  }

  /** The profit/loss input's change handler, on the number `parseFloat` reads:
      for a win a negative value becomes its absolute value, then for a loss a
      positive value is negated. A value that is not a number is left alone. */
  function CorrectSign(result: Option<TradeResult>, v: Number): (r: Number)
    ensures v.NaN? ==> r.NaN?
    ensures v.Num? ==> r.Num? && (r.value == v.value || r.value == -v.value)
    ensures result == Some(Win) && v.Num? ==> r.value >= 0.0
    ensures result == Some(Loss) && v.Num? ==> r.value <= 0.0
    ensures result != Some(Win) && result != Some(Loss) ==> r == v
  {
    var afterWin := if result == Some(Win) && v.Num? && v.value < 0.0 then Num(Abs(v.value)) else v;
    if result == Some(Loss) && afterWin.Num? && afterWin.value > 0.0 then Num(-Abs(afterWin.value))
    else afterWin
  }

  /** A second correction changes nothing. */
  lemma CorrectSignIdempotent(result: Option<TradeResult>, v: Number)
    ensures CorrectSign(result, CorrectSign(result, v)) == CorrectSign(result, v)
  {
  }

  /** A corrected win or loss still fails the server copy's sign check exactly
      when it is zero, since that check asks for a strictly positive win and a
      strictly negative loss. */
  lemma CorrectedSignFailsOnlyAtZero(result: Option<TradeResult>, v: Number, d: TradeData)
    requires d.result == (if result.Some? then Some(ResultName(result.value)) else None)
    requires d.profitLoss == Some(CorrectSign(result, v))
    ensures ServerTradeActions.WrongSign(d) <==>
              v.Num? && v.value == 0.0 && (result == Some(Win) || result == Some(Loss))
  {
  }

  // ---------------------------------------------------------------- custom values

  /** `handleCustomFieldChange(name, value)`: the value is kept under the field's name. */
  function SetCustomValue(values: map<string, CustomValue>, name: string, v: CustomValue): (r: map<string, CustomValue>)
    ensures name in r && r[name] == v
    ensures r.Keys == values.Keys + {name}
    ensures forall k :: k in values && k != name ==> r[k] == values[k]
  {
    values[name := v]
  }

  /** Of two changes to one field only the later one is kept ... */
  lemma LaterChangeWins(values: map<string, CustomValue>, name: string, a: CustomValue, b: CustomValue)
    ensures SetCustomValue(SetCustomValue(values, name, a), name, b) == SetCustomValue(values, name, b)
  {
  }

  /** ... and changes to two different fields do not interfere. */
  lemma ChangesToDifferentFieldsCommute(values: map<string, CustomValue>, m: string, n: string,
                                        a: CustomValue, b: CustomValue)
    requires m != n
    ensures SetCustomValue(SetCustomValue(values, m, a), n, b) == SetCustomValue(SetCustomValue(values, n, b), m, a)
  {
  }

  // ---------------------------------------------------------------- element ids

  const FieldIdPrefix: string := "custom-field-"

  /** The element id of the custom field at `index`: the prefix, the lower-cased
      name with each run of white space turned into one hyphen, a hyphen, the index. */
  function FieldElementId(name: string, index: nat): (r: string)
    ensures |r| > |FieldIdPrefix| && r[..|FieldIdPrefix|] == FieldIdPrefix
    ensures NoWhitespace(r)
  {
    var digits := NatToString(index);
    assert forall i :: 0 <= i < |digits| ==> !IsWhitespace(digits[i]);
    FieldIdPrefix + HyphenateWhitespace(Lower(name)) + "-" + digits
  }

  /** The text after the last hyphen (all of it when there is none). */
  function AfterLastHyphen(s: string): (r: string)
    ensures |r| <= |s|
  {
    if |s| == 0 then []
    else if s[|s| - 1] == '-' then []
    else AfterLastHyphen(s[..|s| - 1]) + [s[|s| - 1]]
  }

  /** A hyphen-free tail behind a hyphen is exactly what follows the last hyphen. */
  lemma {:induction false} AfterLastHyphenOfTail(a: string, d: string)
    requires forall i :: 0 <= i < |d| ==> d[i] != '-'
    ensures AfterLastHyphen(a + "-" + d) == d
    decreases |d|
  {
    var s := a + "-" + d;
    if |d| > 0 {
      var init := d[..|d| - 1];
      assert s[..|s| - 1] == a + "-" + init;
      AfterLastHyphenOfTail(a, init);
      assert d == init + [d[|d| - 1]];
    }
  }

  /** Fields at different positions never share an element id, whatever their names. */
  lemma FieldElementIdsDiffer(m: string, i: nat, n: string, j: nat)
    requires i != j
    ensures FieldElementId(m, i) != FieldElementId(n, j)
  {
    if FieldElementId(m, i) == FieldElementId(n, j) {
      var di, dj := NatToString(i), NatToString(j);
      assert forall k :: 0 <= k < |di| ==> IsDigit(di[k]);
      assert forall k :: 0 <= k < |dj| ==> IsDigit(dj[k]);
      AfterLastHyphenOfTail(FieldIdPrefix + HyphenateWhitespace(Lower(m)), di);
      AfterLastHyphenOfTail(FieldIdPrefix + HyphenateWhitespace(Lower(n)), dj);
      NatToStringInjective(i, j);
    }
  }

  // ---------------------------------------------------------------- submission

  /** `handleSubmit`: the entries the browser collected, then the set dates as
      calendar days, the custom values as JSON, the live/backtest flag and the
      strategy id, and the trade id when editing. */
  function Submission(base: FormData, pickers: DatePickers, customValuesJson: string, isBacktest: bool,
                      strategyId: Id, editing: Option<Id>, isoDay: int -> string): (r: FormData)
    ensures FormEntry(r, "strategyId") == Some(strategyId)
    ensures FormEntry(r, "isBacktest") == Some(BoolText(isBacktest))
    ensures FormEntry(r, "customValues") == Some(customValuesJson)
    ensures FormEntry(r, "id") == if editing.Some? then editing else FormEntry(base, "id")
    ensures FormEntry(r, "dateOpened") ==
              if pickers.dateOpened.Some? then Some(isoDay(pickers.dateOpened.value)) else FormEntry(base, "dateOpened")
    ensures FormEntry(r, "dateClosed") ==
              if pickers.dateClosed.Some? then Some(isoDay(pickers.dateClosed.value)) else FormEntry(base, "dateClosed")
    ensures FormGet(base, "customValues").None? ==> FormGet(r, "customValues") == Some(customValuesJson)
  {
    var a := SubmittedAppends(pickers, customValuesJson, isBacktest, strategyId, editing, isoDay);
    SubmittedChoiceEntries(base, a, pickers, customValuesJson, isBacktest, strategyId, editing, isoDay);
    SubmittedLastEntries(base, a, pickers, customValuesJson, isBacktest, strategyId, editing, isoDay);
    SubmittedDateEntries(base, a, pickers, customValuesJson, isBacktest, strategyId, editing, isoDay);
    SubmittedCustomValuesFirst(base, a, pickers, customValuesJson, isBacktest, strategyId, editing, isoDay);
    AppendedAll(base, a)
  }

  /** The `append` calls of `handleSubmit`, in order; an unset one is skipped. */
  function SubmittedAppends(pickers: DatePickers, customValuesJson: string, isBacktest: bool,
                            strategyId: Id, editing: Option<Id>, isoDay: int -> string): (r: seq<(string, Option<string>)>)
    ensures |r| == 6
  {
    [("dateOpened", DayText(pickers.dateOpened, isoDay)),
     ("dateClosed", DayText(pickers.dateClosed, isoDay)),
     ("customValues", Some(customValuesJson)),
     ("isBacktest", Some(BoolText(isBacktest))),
     ("strategyId", Some(strategyId)),
     ("id", editing)]
  }

  lemma SubmittedChoiceEntries(base: FormData, a: seq<(string, Option<string>)>, pickers: DatePickers,
                             customValuesJson: string, isBacktest: bool, strategyId: Id, editing: Option<Id>,
                             isoDay: int -> string)
    requires a == SubmittedAppends(pickers, customValuesJson, isBacktest, strategyId, editing, isoDay)
    ensures FormEntry(AppendedAll(base, a), "strategyId") == Some(strategyId)
    ensures FormEntry(AppendedAll(base, a), "isBacktest") == Some(BoolText(isBacktest))
  {
    SubmittedKeysDiffer();
    OnlyAdded(a, "strategyId", 4);
    OnlyAdded(a, "isBacktest", 3);
    EntryAfterAll(base, a, "strategyId");
    EntryAfterAll(base, a, "isBacktest");
  }

  lemma SubmittedLastEntries(base: FormData, a: seq<(string, Option<string>)>, pickers: DatePickers,
                             customValuesJson: string, isBacktest: bool, strategyId: Id, editing: Option<Id>,
                             isoDay: int -> string)
    requires a == SubmittedAppends(pickers, customValuesJson, isBacktest, strategyId, editing, isoDay)
    ensures FormEntry(AppendedAll(base, a), "customValues") == Some(customValuesJson)
    ensures FormEntry(AppendedAll(base, a), "id") == if editing.Some? then editing else FormEntry(base, "id")
  {
    OnlyAdded(a, "customValues", 2);
    OnlyAdded(a, "id", 5);
    EntryAfterAll(base, a, "customValues");
    EntryAfterAll(base, a, "id");
  }

  lemma SubmittedDateEntries(base: FormData, a: seq<(string, Option<string>)>, pickers: DatePickers,
                             customValuesJson: string, isBacktest: bool, strategyId: Id, editing: Option<Id>,
                             isoDay: int -> string)
    requires a == SubmittedAppends(pickers, customValuesJson, isBacktest, strategyId, editing, isoDay)
    ensures FormEntry(AppendedAll(base, a), "dateOpened") ==
              if pickers.dateOpened.Some? then Some(isoDay(pickers.dateOpened.value)) else FormEntry(base, "dateOpened")
    ensures FormEntry(AppendedAll(base, a), "dateClosed") ==
              if pickers.dateClosed.Some? then Some(isoDay(pickers.dateClosed.value)) else FormEntry(base, "dateClosed")
  {
    SubmittedKeysDiffer();
    OnlyAdded(a, "dateOpened", 0);
    OnlyAdded(a, "dateClosed", 1);
    EntryAfterAll(base, a, "dateOpened");
    EntryAfterAll(base, a, "dateClosed");
  }

  lemma SubmittedCustomValuesFirst(base: FormData, a: seq<(string, Option<string>)>, pickers: DatePickers,
                                   customValuesJson: string, isBacktest: bool, strategyId: Id, editing: Option<Id>,
                                   isoDay: int -> string)
    requires a == SubmittedAppends(pickers, customValuesJson, isBacktest, strategyId, editing, isoDay)
    ensures FormGet(base, "customValues").None? ==> FormGet(AppendedAll(base, a), "customValues") == Some(customValuesJson)
  {
    OnlyAdded(a, "customValues", 2);
    GetAfterAll(base, a, "customValues");
  }

  /** A set picker's day as the calendar-day text the form submits. */
  function DayText(d: Option<int>, isoDay: int -> string): (r: Option<string>)
    ensures r.Some? <==> d.Some?
    ensures d.Some? ==> r == Some(isoDay(d.value))
  {
    if d.Some? then Some(isoDay(d.value)) else None
  }

  /** The four ten-letter keys the form appends are told apart by one letter each. */
  lemma SubmittedKeysDiffer()
    ensures "strategyId" != "isBacktest" && "strategyId" != "dateOpened" && "strategyId" != "dateClosed"
    ensures "isBacktest" != "dateOpened" && "isBacktest" != "dateClosed" && "dateOpened" != "dateClosed"
  {
    assert "strategyId"[0] == 's' && "isBacktest"[0] == 'i' && "dateOpened"[0] == 'd' && "dateClosed"[0] == 'd';
    assert "dateOpened"[4] == 'O' && "dateClosed"[4] == 'C';
  }

  /** The action reads back what the form added: the strategy, the live/backtest
      flag, the trade id when editing, and a set opening day. */
  lemma SubmissionReadsBack(base: FormData, pickers: DatePickers, customValuesJson: string, isBacktest: bool,
                            strategyId: Id, editing: Option<Id>, isoDay: int -> string, b: Builtins)
    requires FormGet(base, "customValues").None?
    requires b.parseValues(customValuesJson).Some?
    ensures var d := ReadTradeForm(Submission(base, pickers, customValuesJson, isBacktest, strategyId, editing, isoDay),
                                   b, editing.Some?);
      && d.Success?
      && d.value.strategyId == Some(strategyId)
      && d.value.isBacktest == isBacktest
      && (editing.Some? ==> d.value.id == editing)
      && (pickers.dateOpened.Some? && isoDay(pickers.dateOpened.value) != "" ==>
            d.value.dateOpened == Some(isoDay(pickers.dateOpened.value)))
  {
  }
}
