/** The read side of the journal as pure functions over a table's rows, listed
    in the order the database holds them:
    - the trade listing endpoint (`GET /api/trades`), with its status codes,
      its live/backtest split, its count and its requested ordering;
    - the "recent trades" query of a strategy page;
    - the look-up of a strategy, with its custom fields, by name. */
module TradeQueries {
  import opened Wrappers
  import opened Schema
  import opened Forms
  import opened Ordering

  // ---------------------------------------------------------------- WHERE and count(*)

  /** The rows a WHERE clause keeps, in table order. */
  function Filter<T(==,!new)>(rows: seq<T>, p: T -> bool): (r: seq<T>)
    ensures forall x :: multiset(r)[x] == if p(x) then multiset(rows)[x] else 0
    ensures forall x :: x in r ==> p(x)
  {
    if |rows| == 0 then []
    else
      var rest := Filter(rows[1..], p);
      assert rows == [rows[0]] + rows[1..];
      if p(rows[0]) then [rows[0]] + rest else rest
  }

  /** `count(*)` under a WHERE clause. */
  function Count<T>(rows: seq<T>, p: T -> bool): (n: nat)
    ensures n <= |rows|
  {
    if |rows| == 0 then 0
    else (if p(rows[0]) then 1 else 0) + Count(rows[1..], p)
  }

  /** The count query and the row query agree, because they share their WHERE clause. */
  lemma {:induction false} FilterLengthIsCount<T(!new)>(rows: seq<T>, p: T -> bool)
    ensures |Filter(rows, p)| == Count(rows, p)
  {
    if |rows| > 0 {
      FilterLengthIsCount(rows[1..], p);
    }
  }

  // ---------------------------------------------------------------- GET /api/trades

  /** The listing's WHERE clause: the caller's trades of one strategy, on one side
      of the live/backtest split. */
  predicate Listed(t: Trade, user: UserId, sid: Id, backtest: bool) {
    t.userId == user && t.strategyId == sid && t.isBacktest == backtest
  }

  /** `searchParams.get(key) || fallback`: a missing or empty parameter takes the fallback. */
  function ParamOr(params: FormData, key: string, fallback: string): (r: string)
    ensures Truthy(FormGet(params, key)) ==> r == FormGet(params, key).value
    ensures !Truthy(FormGet(params, key)) ==> r == fallback
  {
    var v := FormGet(params, key);
    if Truthy(v) then v.value else fallback
  }

  /** The column named by `sortField`, `createdAt` when none is given. */
  function SortFieldParam(params: FormData): string {
    ParamOr(params, "sortField", "createdAt")
  }

  /** Descending exactly when `sortDirection` reads "desc", which it does when none is given. */
  predicate DescendingParam(params: FormData) {
    ParamOr(params, "sortDirection", "desc") == "desc"
  }

  /** Only the exact text "true" selects the backtest side. */
  predicate BacktestParam(params: FormData) {
    FormGet(params, "isBacktest") == Some("true")
  }

  datatype Response =
    | Listing(trades: seq<Trade>, totalCount: nat)
    | ErrorStatus(status: nat, error: string)

  /** Both queries of a listing. The row query is ordered by the requested column. */
  function ListTrades(rows: seq<Trade>, user: UserId, sid: Id, backtest: bool,
                      f: SortField, desc: bool): (r: Response)
    ensures r.Listing? && r.totalCount == |r.trades|
    ensures forall t :: multiset(r.trades)[t] == if Listed(t, user, sid, backtest) then multiset(rows)[t] else 0
    ensures Sorted(r.trades, f, desc)
  {
    var p := (t: Trade) => Listed(t, user, sid, backtest);
    var matching := Filter(rows, p);
    FilterLengthIsCount(rows, p);
    Listing(SortTrades(matching, f, desc), Count(rows, p))
  }

  /** `GET(request)`. The session check comes before every parameter check. A
      `strategyId` that is not a UUID makes the count query fail on the uuid
      column, and a `sortField` that names no column makes the row query fail;
      the handler turns either into a 500. */
  function GetTrades(session: Option<UserId>, params: FormData, rows: seq<Trade>): (r: Response)
    ensures session.None? ==> r == ErrorStatus(401, "You must be logged in to access trades")
    ensures session.Some? && !Truthy(FormGet(params, "strategyId")) ==>
              r == ErrorStatus(400, "Strategy ID is required")
    ensures r.Listing? <==>
              && session.Some? && Truthy(FormGet(params, "strategyId"))
              && IsUuid(FormGet(params, "strategyId").value)
              && ParseSortField(SortFieldParam(params)).Some?
    ensures session.Some? && Truthy(FormGet(params, "strategyId")) && !r.Listing? ==>
              r == ErrorStatus(500, "Failed to fetch trades")
    ensures r.Listing? ==>
              && r.totalCount == |r.trades|
              && (forall t :: multiset(r.trades)[t] ==
                    if Listed(t, session.value, FormGet(params, "strategyId").value, BacktestParam(params))
                    then multiset(rows)[t] else 0)
              && Sorted(r.trades, ParseSortField(SortFieldParam(params)).value, DescendingParam(params))
  {
    var sid := FormGet(params, "strategyId");
    if session.None? then ErrorStatus(401, "You must be logged in to access trades")
    else if !Truthy(sid) then ErrorStatus(400, "Strategy ID is required")
    else if !IsUuid(sid.value) then ErrorStatus(500, "Failed to fetch trades")
    else match ParseSortField(SortFieldParam(params))
      case None => ErrorStatus(500, "Failed to fetch trades")
      case Some(f) => ListTrades(rows, session.value, sid.value, BacktestParam(params), f, DescendingParam(params))
  }

  /** Without `sortField` and `sortDirection` the listing is newest first. */
  lemma NewestFirstByDefault(user: UserId, params: FormData, rows: seq<Trade>)
    requires Truthy(FormGet(params, "strategyId")) && IsUuid(FormGet(params, "strategyId").value)
    requires FormGet(params, "sortField").None? && FormGet(params, "sortDirection").None?
    ensures GetTrades(Some(user), params, rows).Listing?
    ensures Sorted(GetTrades(Some(user), params, rows).trades, ByCreatedAt, true)
    ensures forall i, j :: 0 <= i < j < |GetTrades(Some(user), params, rows).trades| ==>
              GetTrades(Some(user), params, rows).trades[j].createdAt <=
              GetTrades(Some(user), params, rows).trades[i].createdAt
  {
    DefaultSortParams(params);
    var ts := GetTrades(Some(user), params, rows).trades;
    forall i, j | 0 <= i < j < |ts|
      ensures ts[j].createdAt <= ts[i].createdAt
    {
      NewestFirstPair(ts[i], ts[j]);
    }
  }

  /** Neither sort parameter given: `createdAt`, descending. */
  lemma DefaultSortParams(params: FormData)
    requires FormGet(params, "sortField").None? && FormGet(params, "sortDirection").None?
    ensures ParseSortField(SortFieldParam(params)) == Some(ByCreatedAt)
    ensures DescendingParam(params)
  {
    assert SortFieldName(ByCreatedAt) == "createdAt";
  }

  lemma NewestFirstPair(a: Trade, b: Trade)
    requires InOrder(a, b, ByCreatedAt, true)
    ensures b.createdAt <= a.createdAt
  {
  }

  /** A live listing and a backtest listing never share a trade. */
  lemma LiveAndBacktestListingsAreDisjoint(user: UserId, live: FormData, backtest: FormData, rows: seq<Trade>)
    requires GetTrades(Some(user), live, rows).Listing? && GetTrades(Some(user), backtest, rows).Listing?
    requires !BacktestParam(live) && BacktestParam(backtest)
    ensures forall t :: t in GetTrades(Some(user), live, rows).trades ==>
              t !in GetTrades(Some(user), backtest, rows).trades
  {
    forall t | t in GetTrades(Some(user), live, rows).trades
      ensures t !in GetTrades(Some(user), backtest, rows).trades
    {
      assert multiset(GetTrades(Some(user), live, rows).trades)[t] > 0;
    }
  }

  // ---------------------------------------------------------------- recent trades

  const DefaultRecentLimit: int := 5

  /** The caller's trades of one strategy, on both sides of the live/backtest split. */
  predicate OfStrategy(t: Trade, user: UserId, sid: Id) {
    t.userId == user && t.strategyId == sid
  }

  /** The recent-trades WHERE clause as a row predicate. */
  function OfStrategyRow(user: UserId, sid: Id): Trade -> bool {
    (t: Trade) => OfStrategy(t, user, sid)
  }

  /** The `limit` first rows of a sorted list are a sorted sub-multiset of it. */
  lemma {:induction false} SortedPrefix(s: seq<Trade>, k: nat, f: SortField, desc: bool)
    requires k <= |s| && Sorted(s, f, desc)
    ensures multiset(s[..k]) <= multiset(s)
    ensures Sorted(s[..k], f, desc)
    ensures forall t :: t in s[..k] ==> t in s
  {
    assert s == s[..k] + s[k..];
  }

  /** The caller's trades of one strategy, newest first. */
  function NewestOfStrategy(rows: seq<Trade>, user: UserId, sid: Id): (r: seq<Trade>)
    ensures |r| == Count(rows, OfStrategyRow(user, sid))
    ensures forall t :: multiset(r)[t] == if OfStrategy(t, user, sid) then multiset(rows)[t] else 0
    ensures Sorted(r, ByCreatedAt, true)
  {
    FilterLengthIsCount(rows, OfStrategyRow(user, sid));
    SortTrades(Filter(rows, OfStrategyRow(user, sid)), ByCreatedAt, true)
  }

  function Min(a: int, b: int): int {
    if a <= b then a else b
  }

  /** How many of `n` matching rows a query with `limit` returns. The query
      builder writes a LIMIT clause only for a limit of zero or more, so a
      negative limit returns every row. */
  function RowsKept(limit: int, n: nat): (k: nat)
    ensures k <= n
    ensures limit < 0 ==> k == n
    ensures limit >= 0 ==> k == Min(limit, n)
  {
    if limit < 0 then n else Min(limit, n)
  }

  /** `getRecentTradesByStrategyId(strategyId, limit = 5)`: the newest `limit`
      trades. The query rejects (`None`) for a `strategyId` that is not a UUID;
      nothing catches it. A negative `limit` adds no LIMIT clause. */
  function RecentTrades(session: Option<UserId>, strategyId: Id, limit: Option<int>,
                        rows: seq<Trade>): (r: Option<seq<Trade>>)
    ensures session.None? ==> r == Some([])
    ensures session.Some? ==> (r.None? <==> !IsUuid(strategyId))
    ensures r.Some? && session.Some? ==>
              && |r.value| == RowsKept(limit.GetOr(DefaultRecentLimit), Count(rows, OfStrategyRow(session.value, strategyId)))
              && multiset(r.value) <= multiset(rows)
              && (forall t :: t in r.value ==> OfStrategy(t, session.value, strategyId))
              && Sorted(r.value, ByCreatedAt, true)
    ensures r.Some? && session.Some? && limit.GetOr(DefaultRecentLimit) < 0 ==>
              r.value == NewestOfStrategy(rows, session.value, strategyId)
  {
    var lim := limit.GetOr(DefaultRecentLimit);
    if session.None? then Some([])
    else if !IsUuid(strategyId) then None
    else
      var newest := NewestOfStrategy(rows, session.value, strategyId);
      var k := RowsKept(lim, |newest|);
      SortedPrefix(newest, k, ByCreatedAt, true);
      assert k == |newest| ==> newest[..k] == newest;
      Some(newest[..k])
  }

  /** What the limit leaves out is no newer than anything it keeps. */
  lemma RecentTradesAreTheNewest(user: UserId, strategyId: Id, limit: Option<int>, rows: seq<Trade>, t: Trade, x: Trade)
    requires RecentTrades(Some(user), strategyId, limit, rows).Some?
    requires t in rows && OfStrategy(t, user, strategyId)
    requires t !in RecentTrades(Some(user), strategyId, limit, rows).value
    requires x in RecentTrades(Some(user), strategyId, limit, rows).value
    ensures t.createdAt <= x.createdAt
  {
    var newest := NewestOfStrategy(rows, user, strategyId);
    var k := RowsKept(limit.GetOr(DefaultRecentLimit), |newest|);
    RecentTradesIsPrefix(user, strategyId, limit, rows);
    assert multiset(newest)[t] == multiset(rows)[t] > 0;
    var j :| 0 <= j < |newest| && newest[j] == t;
    var i :| 0 <= i < k && newest[i] == x;
    assert j >= k;
    assert InOrder(newest[i], newest[j], ByCreatedAt, true);
  }

  /** With a limit that cuts nothing, the recent trades are the live listing and
      the backtest listing together: the query has no `isBacktest` condition. */
  lemma RecentTradesSpanBothSides(user: UserId, strategyId: Id, limit: int, rows: seq<Trade>)
    requires IsUuid(strategyId) && limit >= |rows|
    ensures var r := RecentTrades(Some(user), strategyId, Some(limit), rows);
      && r.Some?
      && multiset(r.value) == multiset(ListTrades(rows, user, strategyId, false, ByCreatedAt, true).trades)
                              + multiset(ListTrades(rows, user, strategyId, true, ByCreatedAt, true).trades)
  {
    var r := RecentTrades(Some(user), strategyId, Some(limit), rows);
    assert r.Some?;
    var newest := NewestOfStrategy(rows, user, strategyId);
    RecentTradesIsPrefix(user, strategyId, Some(limit), rows);
    assert |newest| <= |rows|;
    assert RowsKept(Some(limit).GetOr(DefaultRecentLimit), |newest|) == |newest|;
    assert newest[..|newest|] == newest;
    assert r.value == newest;
    NewestSpansBothSides(user, strategyId, rows);
  }

  /** The recent trades are the first rows of the caller's trades of the strategy, newest first. */
  lemma RecentTradesIsPrefix(user: UserId, strategyId: Id, limit: Option<int>, rows: seq<Trade>)
    requires RecentTrades(Some(user), strategyId, limit, rows).Some?
    ensures var newest := NewestOfStrategy(rows, user, strategyId);
      RecentTrades(Some(user), strategyId, limit, rows).value == newest[..RowsKept(limit.GetOr(DefaultRecentLimit), |newest|)]
  {
  }

  lemma NewestSpansBothSides(user: UserId, strategyId: Id, rows: seq<Trade>)
    ensures multiset(NewestOfStrategy(rows, user, strategyId)) ==
              multiset(ListTrades(rows, user, strategyId, false, ByCreatedAt, true).trades)
              + multiset(ListTrades(rows, user, strategyId, true, ByCreatedAt, true).trades)
  {
    var newest := NewestOfStrategy(rows, user, strategyId);
    var live := ListTrades(rows, user, strategyId, false, ByCreatedAt, true).trades;
    var backtest := ListTrades(rows, user, strategyId, true, ByCreatedAt, true).trades;
    forall t
      ensures multiset(newest)[t] == (multiset(live) + multiset(backtest))[t]
    {
      var n := multiset(rows)[t];
      assert multiset(newest)[t] == if OfStrategy(t, user, strategyId) then n else 0;
      assert multiset(live)[t] == if Listed(t, user, strategyId, false) then n else 0;
      assert multiset(backtest)[t] == if Listed(t, user, strategyId, true) then n else 0;
    }
    assert multiset(newest) == multiset(live) + multiset(backtest);
  }

  // ---------------------------------------------------------------- strategy by name

  /** A strategy row with its custom-field relation loaded. */
  datatype StrategyWithFields = StrategyWithFields(strategy: Strategy, customFields: seq<CustomField>)

  predicate Named(s: Strategy, user: UserId, name: string) {
    s.userId == user && s.name == name
  }

  /** The position of the first row at or after `from` that is the user's strategy called `name`. */
  function FirstNamed(rows: seq<Strategy>, user: UserId, name: string, from: nat): (r: Option<nat>)
    requires from <= |rows|
    ensures r.Some? ==> from <= r.value < |rows| && Named(rows[r.value], user, name)
    ensures forall j :: from <= j < |rows| && (r.None? || j < r.value) ==> !Named(rows[j], user, name)
    decreases |rows| - from
  {
    if from == |rows| then None
    else if Named(rows[from], user, name) then Some(from)
    else FirstNamed(rows, user, name, from + 1)
  }

  /** `getStrategyByName(name)`: the caller's strategy called `name`, the first
      such row, with its custom fields; nothing without a session. */
  function StrategyByName(session: Option<UserId>, name: string, strategies: seq<Strategy>,
                          fields: seq<CustomField>): (r: Option<StrategyWithFields>)
    ensures session.None? ==> r.None?
    ensures session.Some? ==> (r.None? <==> forall s :: s in strategies ==> !Named(s, session.value, name))
    ensures r.Some? ==>
              && session.Some?
              && Named(r.value.strategy, session.value, name)
              && (exists i :: 0 <= i < |strategies| && strategies[i] == r.value.strategy
                    && forall j :: 0 <= j < i ==> !Named(strategies[j], session.value, name))
              && (forall f :: multiset(r.value.customFields)[f] ==
                    if f.strategyId == r.value.strategy.id then multiset(fields)[f] else 0)
  {
    if session.None? then None
    else match FirstNamed(strategies, session.value, name, 0)
      case None => None
      case Some(i) =>
        var s := strategies[i];
        Some(StrategyWithFields(s, Filter(fields, (f: CustomField) => f.strategyId == s.id)))
  }

  /** No two rows of the user share a name, as the (user_id, name) index demands. */
  predicate NamesUniqueIn(rows: seq<Strategy>) {
    forall i, j :: 0 <= i < j < |rows| && rows[i].userId == rows[j].userId ==> rows[i].name != rows[j].name
  }

  /** Rows read out of a well-formed store, each once, keep its unique index. */
  lemma StoreRowsHaveUniqueNames(st: Store, rows: seq<Strategy>)
    requires WellFormed(st)
    requires forall i :: 0 <= i < |rows| ==> rows[i].id in st.strategies && st.strategies[rows[i].id] == rows[i]
    requires forall i, j :: 0 <= i < j < |rows| ==> rows[i].id != rows[j].id
    ensures NamesUniqueIn(rows)
  {
    forall i, j | 0 <= i < j < |rows| && rows[i].userId == rows[j].userId
      ensures rows[i].name != rows[j].name
    {
      var a, b := rows[i].id, rows[j].id;
      assert st.strategies[a] == rows[i] && st.strategies[b] == rows[j];
    }
  }

  /** Under the unique index, a found strategy is the only row that matches. */
  lemma StrategyByNameIsTheOnlyMatch(user: UserId, name: string, strategies: seq<Strategy>, fields: seq<CustomField>)
    requires NamesUniqueIn(strategies)
    ensures forall s :: s in strategies && Named(s, user, name) ==>
              StrategyByName(Some(user), name, strategies, fields) ==
              Some(StrategyWithFields(s, Filter(fields, (f: CustomField) => f.strategyId == s.id)))
  {
    forall s | s in strategies && Named(s, user, name)
      ensures StrategyByName(Some(user), name, strategies, fields) ==
              Some(StrategyWithFields(s, Filter(fields, (f: CustomField) => f.strategyId == s.id)))
    {
      var k :| 0 <= k < |strategies| && strategies[k] == s;
      var i := FirstNamed(strategies, user, name, 0).value;
      if i != k {
        assert false;
      }
    }
  }
}
