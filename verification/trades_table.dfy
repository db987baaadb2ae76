/** The logic of the trades table component (`TradesTable`):
    - its initial sorting and paging;
    - the listing request it derives from the sorting;
    - how it reads the listing back;
    - how it labels a trade's status and result;
    - which custom-field columns it adds.
    Sorting and paging are manual: the rows appear in the order the listing
    endpoint returns them. */
module TradesTable {
  import opened Wrappers
  import opened Text
  import opened Schema
  import opened Forms
  import opened Ordering
  import opened TradeQueries

  // ---------------------------------------------------------------- state and request

  /** One entry of the table's sorting state: a column id and its direction. */
  datatype ColumnSort = ColumnSort(id: string, desc: bool)

  datatype TableState = TableState(sorting: seq<ColumnSort>, pageIndex: nat, pageSize: nat)

  /** Newest first, on the first page of ten rows. */
  const InitialState: TableState := TableState([ColumnSort("createdAt", true)], 0, 10)

  /** The `sortField` and `sortDirection` the table asks for: the first sorted
      column, or `createdAt` when nothing is sorted; descending unless that
      column is sorted ascending. */
  function SortParams(sorting: seq<ColumnSort>): (r: (string, string))
    ensures |sorting| == 0 ==> r == ("createdAt", "desc")
    ensures |sorting| > 0 ==> r.0 == sorting[0].id
    ensures r.1 == "desc" <==> |sorting| == 0 || sorting[0].desc
    ensures r.1 == "desc" || r.1 == "asc"
  {
    if |sorting| == 0 then ("createdAt", "desc")
    else (sorting[0].id, if sorting[0].desc then "desc" else "asc")
  }

  /** The query string of the listing request, one entry per parameter. */
  function RequestParams(strategyId: Id, isBacktest: bool, st: TableState): (r: FormData)
    ensures FormGet(r, "strategyId") == Some(strategyId)
    ensures FormGet(r, "isBacktest") == Some(BoolText(isBacktest))
    ensures FormGet(r, "sortField") == Some(SortParams(st.sorting).0)
    ensures FormGet(r, "sortDirection") == Some(SortParams(st.sorting).1)
  {
    var (field, direction) := SortParams(st.sorting);
    var p1 := Appended([], "strategyId", strategyId);
    var p2 := Appended(p1, "isBacktest", BoolText(isBacktest));
    var p3 := Appended(p2, "pageIndex", NatToString(st.pageIndex));
    var p4 := Appended(p3, "pageSize", NatToString(st.pageSize));
    var p5 := Appended(p4, "sortField", field);
    Appended(p5, "sortDirection", direction)
  }

  /** A UUID is never empty, so the listing never answers the table with a 400. */
  lemma UuidIsTruthy(s: string)
    requires IsUuid(s)
    ensures Truthy(Some(s))
  {
  }

  /** The listing answers the table's request with the strategy's trades on the
      table's side of the live/backtest split, ordered by the table's first
      sorted column in its direction. */
  lemma TableGetsItsOrdering(user: UserId, strategyId: Id, isBacktest: bool, st: TableState, rows: seq<Trade>)
    requires IsUuid(strategyId)
    requires ParseSortField(SortParams(st.sorting).0).Some?
    ensures var r := GetTrades(Some(user), RequestParams(strategyId, isBacktest, st), rows);
      && r.Listing?
      && r.totalCount == |r.trades|
      && (forall t :: t in r.trades ==> Listed(t, user, strategyId, isBacktest))
      && Sorted(r.trades, ParseSortField(SortParams(st.sorting).0).value, |st.sorting| == 0 || st.sorting[0].desc)
  {
    var params := RequestParams(strategyId, isBacktest, st);
    UuidIsTruthy(strategyId);
    var f := SortParams(st.sorting).0;
    assert f != "" by {
      assert SortFieldName(ParseSortField(f).value) == f;
    }
    assert SortFieldParam(params) == f;
    assert BacktestParam(params) == isBacktest;
    var r := GetTrades(Some(user), params, rows);
    forall t | t in r.trades
      ensures Listed(t, user, strategyId, isBacktest)
    {
      assert multiset(r.trades)[t] > 0;
    }
  }

  /** The table's first request asks for the listing's own default ordering. */
  lemma InitialRequestIsTheDefault(user: UserId, strategyId: Id, isBacktest: bool, rows: seq<Trade>)
    requires IsUuid(strategyId)
    ensures var r := GetTrades(Some(user), RequestParams(strategyId, isBacktest, InitialState), rows);
      && r.Listing?
      && Sorted(r.trades, ByCreatedAt, true)
      && r == GetTrades(Some(user), [("strategyId", strategyId), ("isBacktest", BoolText(isBacktest))], rows)
  {
    var params := RequestParams(strategyId, isBacktest, InitialState);
    var bare: FormData := [("strategyId", strategyId), ("isBacktest", BoolText(isBacktest))];
    UuidIsTruthy(strategyId);
    assert SortParams(InitialState.sorting) == ("createdAt", "desc");
    assert SortFieldParam(params) == "createdAt" && DescendingParam(params);
    assert FormGet(bare, "strategyId") == Some(strategyId);
    assert FormGet(bare, "isBacktest") == Some(BoolText(isBacktest));
    assert FormGet(bare, "sortField").None? && FormGet(bare, "sortDirection").None?;
    DefaultSortParams(bare);
    assert SortFieldParam(bare) == "createdAt";
    SameParamsSameListing(Some(user), params, bare, rows);
    NewestFirstByDefault(user, bare, rows);
  }

  /** The listing reads nothing of the query string but the strategy id, the
      live/backtest flag and the two sort parameters. */
  lemma SameParamsSameListing(session: Option<UserId>, p: FormData, q: FormData, rows: seq<Trade>)
    requires FormGet(p, "strategyId") == FormGet(q, "strategyId")
    requires BacktestParam(p) == BacktestParam(q)
    requires SortFieldParam(p) == SortFieldParam(q) && DescendingParam(p) == DescendingParam(q)
    ensures GetTrades(session, p, rows) == GetTrades(session, q, rows)
  {
  }

  // ---------------------------------------------------------------- reading the response

  /** What the table shows of a response: its trades (none when the request
      failed, since the query then throws and leaves no data) and its page
      count, `pageCount || 0`. */
  datatype TableView = TableView(trades: seq<Trade>, pageCount: int)

  /** `pageCount || 0`: a missing or zero page count reads as 0. */
  function PageCount(field: Option<int>): (r: int)
    ensures field.None? ==> r == 0
    ensures field.Some? ==> r == field.value
    ensures r == 0 <==> field.None? || field.value == 0
  {
    if field.Some? && field.value != 0 then field.value else 0
  }

  /** The listing carries no page count, so the table always counts 0 pages. */
  function ViewOf(resp: Response): (v: TableView)
    ensures v.pageCount == 0
    ensures resp.Listing? ==> v.trades == resp.trades
    ensures resp.ErrorStatus? ==> v.trades == []
  {
    TableView(if resp.Listing? then resp.trades else [], PageCount(None))
  }

  // ---------------------------------------------------------------- labels

  /** The status badge: two known statuses by name, and "Closed" for anything else. */
  function StatusLabel(status: string): (r: string)
    ensures status == "order_placed" <==> r == "Order Placed"
    ensures status == "open" <==> r == "Open"
    ensures status != "order_placed" && status != "open" <==> r == "Closed"
  {
    if status == "order_placed" then "Order Placed"
    else if status == "open" then "Open"
    else "Closed"
  }

  /** Different statuses get different badges. */
  lemma StatusLabelsDistinct(a: TradeStatus, b: TradeStatus)
    requires a != b
    ensures StatusLabel(StatusName(a)) != StatusLabel(StatusName(b))
  {
  }

  /** `s.replace(a, b)` with a one-character pattern: only the first `a` changes. */
  function ReplaceFirst(s: string, a: char, b: char): (r: string)
    ensures |r| == |s|
    ensures a !in s ==> r == s
  {
    if |s| == 0 then []
    else if s[0] == a then [b] + s[1..]
    else [s[0]] + ReplaceFirst(s[1..], a, b)
  }

  /** Past a stretch without `a`, the replacement happens in what follows. */
  lemma {:induction false} ReplaceFirstPastPrefix(p: string, s: string, a: char, b: char)
    requires a !in p
    ensures ReplaceFirst(p + s, a, b) == p + ReplaceFirst(s, a, b)
  {
    if |p| > 0 {
      assert (p + s)[1..] == p[1..] + s;
      ReplaceFirstPastPrefix(p[1..], s, a, b);
      calc {
        ReplaceFirst(p + s, a, b);
        [p[0]] + ReplaceFirst(p[1..] + s, a, b);
        [p[0]] + (p[1..] + ReplaceFirst(s, a, b));
        { assert p == [p[0]] + p[1..]; }
        p + ReplaceFirst(s, a, b);
      }
    } else {
      assert p + s == s;
    }
  }

  /** The first `a` becomes `b` and everything after it is kept, further `a`s included. */
  lemma ReplaceFirstReplacesTheFirst(p: string, s: string, a: char, b: char)
    requires a !in p
    ensures ReplaceFirst(p + [a] + s, a, b) == p + [b] + s
  {
    var t := [a] + s;
    assert p + [a] + s == p + t;
    ReplaceFirstPastPrefix(p, t, a, b);
    assert t[0] == a && t[1..] == s;
    assert ReplaceFirst(t, a, b) == [b] + s;
    assert p + ([b] + s) == p + [b] + s;
  }

  /** The result badge: the first letter upper-cased and, after it, the first
      underscore turned into a space; "N/A" when there is no result. */
  function ResultLabel(result: Option<string>): (r: string)
    ensures !Truthy(result) ==> r == "N/A"
    ensures Truthy(result) ==>
              |r| == |result.value| && r[0] == ToUpper(result.value[0])
              && r[1..] == ReplaceFirst(result.value[1..], '_', ' ')
  {
    if !Truthy(result) then "N/A"
    else [ToUpper(result.value[0])] + ReplaceFirst(result.value[1..], '_', ' ')
  }

  /** A result name without an underscore only gets its first letter upper-cased ... */
  lemma ResultLabelOfWord(c: char, w: string)
    requires '_' !in w
    ensures ResultLabel(Some([c] + w)) == [ToUpper(c)] + w
  {
    assert ([c] + w)[1..] == w;
  }

  /** ... and one with an underscore also has it turned into a space. */
  lemma ResultLabelOfTwoWords(c: char, w: string, v: string)
    requires '_' !in w
    ensures ResultLabel(Some([c] + w + "_" + v)) == [ToUpper(c)] + w + " " + v
  {
    assert ([c] + w + "_" + v)[1..] == w + ['_'] + v;
    ReplaceFirstReplacesTheFirst(w, v, '_', ' ');
  }

  /** The badges of the three results: "Win", "Break even" and "Loss". */
  lemma WinLabel()
    ensures ResultLabel(Some(ResultName(Win))) == "Win"
  {
    ResultLabelOfWord('w', "in");
    assert "win" == ['w'] + "in";
  }

  lemma LossLabel()
    ensures ResultLabel(Some(ResultName(Loss))) == "Loss"
  {
    ResultLabelOfWord('l', "oss");
    assert "loss" == ['l'] + "oss";
  }

  lemma BreakEvenLabel()
    ensures ResultLabel(Some(ResultName(BreakEven))) == "Break even"
  {
    assert "Break even" == ['B'] + "reak" + " " + "even";
    assert ResultName(BreakEven) == ['b'] + "reak" + "_" + "even";
    assert ToUpper('b') == 'B';
    ResultLabelOfTwoWords('b', "reak", "even");
  }

  // ---------------------------------------------------------------- custom-field columns

  const CustomColumnPrefix: string := "customField_"

  function CustomColumnId(name: string): string {
    CustomColumnPrefix + name
  }

  /** The custom-field columns: the keys of the first trade's custom values, and
      none for an empty page. Keys that only later trades carry get no column. */
  function CustomColumns(trades: seq<Trade>): (r: set<string>)
    ensures |trades| == 0 ==> r == {}
    ensures |trades| > 0 ==> r == trades[0].customValues.Keys
    ensures forall t :: t in trades ==> forall k :: k in t.customValues && k !in r ==> t != trades[0]
  {
    if |trades| == 0 then {} else trades[0].customValues.Keys
  }

  /** Different custom fields get different column ids. */
  lemma CustomColumnIdsDistinct(m: string, n: string)
    requires m != n
    ensures CustomColumnId(m) != CustomColumnId(n)
  {
    assert CustomColumnId(m)[|CustomColumnPrefix|..] == m;
    assert CustomColumnId(n)[|CustomColumnPrefix|..] == n;
  }

  /** A custom-field column id names no trade column, so sorting by one makes the
      listing fail with a 500. */
  lemma CustomColumnSortFails(user: UserId, strategyId: Id, isBacktest: bool, st: TableState,
                              rows: seq<Trade>, name: string)
    requires IsUuid(strategyId)
    requires |st.sorting| > 0 && st.sorting[0].id == CustomColumnId(name)
    ensures GetTrades(Some(user), RequestParams(strategyId, isBacktest, st), rows)
            == ErrorStatus(500, "Failed to fetch trades")
  {
    var id := CustomColumnId(name);
    UuidIsTruthy(strategyId);
    LongNamesNameNoColumn(id);
  }

  /** Every column name is at most ten characters long. */
  lemma LongNamesNameNoColumn(s: string)
    requires |s| > 10
    ensures ParseSortField(s).None?
  {
  }
}
