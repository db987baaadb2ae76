/** How the database orders trades for `ORDER BY <column> ASC|DESC`. Each
    sortable column gives a key. Timestamps, numbers, booleans and enum
    positions become numbers; text compares character by character. NULL sorts
    after every value when ascending, and so before every value when
    descending. */
module Ordering {
  import opened Wrappers
  import opened Schema

  // ---------------------------------------------------------------- keys

  /** A column value as the database compares it. */
  datatype Key = Num(x: real) | Text(s: string) | Null

  /** Character-by-character order on text; a prefix comes first. */
  predicate TextLe(a: string, b: string)
    decreases |a|
  {
    |a| == 0 || (|b| > 0 && (a[0] < b[0] || (a[0] == b[0] && TextLe(a[1..], b[1..]))))
  }

  lemma {:induction false} TextLeTotal(a: string, b: string)
    ensures TextLe(a, b) || TextLe(b, a)
    decreases |a|
  {
    if |a| > 0 && |b| > 0 && a[0] == b[0] {
      TextLeTotal(a[1..], b[1..]);
    }
  }

  lemma {:induction false} TextLeTrans(a: string, b: string, c: string)
    requires TextLe(a, b) && TextLe(b, c)
    ensures TextLe(a, c)
    decreases |a|
  {
    if |a| > 0 && a[0] == b[0] && b[0] == c[0] {
      TextLeTrans(a[1..], b[1..], c[1..]);
    }
  }

  /** The ascending order of keys: numbers before text, and NULL last. */
  predicate KeyLe(a: Key, b: Key) {
    match (a, b)
    case (_, Null) => true
    case (Null, _) => false
    case (Num(x), Num(y)) => x <= y
    case (Text(s), Text(t)) => TextLe(s, t)
    case (Num(_), Text(_)) => true
    case (Text(_), Num(_)) => false
  }

  lemma KeyLeTotal(a: Key, b: Key)
    ensures KeyLe(a, b) || KeyLe(b, a)
  {
    if a.Text? && b.Text? {
      TextLeTotal(a.s, b.s);
    }
  }

  lemma KeyLeTrans(a: Key, b: Key, c: Key)
    requires KeyLe(a, b) && KeyLe(b, c)
    ensures KeyLe(a, c)
  {
    if a.Text? && b.Text? && c.Text? {
      TextLeTrans(a.s, b.s, c.s);
    }
  }

  // ---------------------------------------------------------------- columns

  /** The trade columns a request may sort by. */
  datatype SortField =
    | ById | ByUserId | ByStrategyId | ByStatus | ByAsset | ByDateOpened | ByDateClosed
    | ByDirection | ByResult | ByProfitLoss | ByNotes | ByIsBacktest | ByCreatedAt | ByUpdatedAt

  function SortFieldName(f: SortField): string {
    match f
    case ById => "id"
    case ByUserId => "userId"
    case ByStrategyId => "strategyId"
    case ByStatus => "status"
    case ByAsset => "asset"
    case ByDateOpened => "dateOpened"
    case ByDateClosed => "dateClosed"
    case ByDirection => "direction"
    case ByResult => "result"
    case ByProfitLoss => "profitLoss"
    case ByNotes => "notes"
    case ByIsBacktest => "isBacktest"
    case ByCreatedAt => "createdAt"
    case ByUpdatedAt => "updatedAt"
  }

  /** The column names differ in length or first letter, but for the two dates. */
  lemma SortFieldNamesDiffer()
    ensures |"id"| == 2 && "id"[0] == 'i'
    ensures |"userId"| == 6 && "userId"[0] == 'u'
    ensures |"strategyId"| == 10 && "strategyId"[0] == 's'
    ensures |"status"| == 6 && "status"[0] == 's'
    ensures |"asset"| == 5 && "asset"[0] == 'a'
    ensures |"dateOpened"| == 10 && "dateOpened"[0] == 'd'
    ensures |"dateClosed"| == 10 && "dateClosed"[0] == 'd'
    ensures |"direction"| == 9 && "direction"[0] == 'd'
    ensures |"result"| == 6 && "result"[0] == 'r'
    ensures |"profitLoss"| == 10 && "profitLoss"[0] == 'p'
    ensures |"notes"| == 5 && "notes"[0] == 'n'
    ensures |"isBacktest"| == 10 && "isBacktest"[0] == 'i'
    ensures |"createdAt"| == 9 && "createdAt"[0] == 'c'
    ensures |"updatedAt"| == 9 && "updatedAt"[0] == 'u'
    ensures "dateOpened"[4] == 'O' && "dateClosed"[4] == 'C'
  {
  }

  /** `fields[sortField]`: the column a request names, by its property name. */
  function ParseSortField(s: string): (r: Option<SortField>)
    ensures r.Some? ==> SortFieldName(r.value) == s
    ensures forall f :: SortFieldName(f) == s ==> r == Some(f)
  {
    SortFieldNamesDiffer();
    if s == "id" then Some(ById)
    else if s == "userId" then Some(ByUserId)
    else if s == "strategyId" then Some(ByStrategyId)
    else if s == "status" then Some(ByStatus)
    else if s == "asset" then Some(ByAsset)
    else if s == "dateOpened" then Some(ByDateOpened)
    else if s == "dateClosed" then Some(ByDateClosed)
    else if s == "direction" then Some(ByDirection)
    else if s == "result" then Some(ByResult)
    else if s == "profitLoss" then Some(ByProfitLoss)
    else if s == "notes" then Some(ByNotes)
    else if s == "isBacktest" then Some(ByIsBacktest)
    else if s == "createdAt" then Some(ByCreatedAt)
    else if s == "updatedAt" then Some(ByUpdatedAt)
    else None
  }

  /** An enum value's position in its declaration, which is how enums compare. */
  function StatusRank(s: TradeStatus): real {
    match s
    case OrderPlaced => 0.0
    case Open => 1.0
    case Closed => 2.0
  }

  function ResultRank(r: TradeResult): real {
    match r
    case Win => 0.0
    case BreakEven => 1.0
    case Loss => 2.0
  }

  function DirectionRank(d: Direction): real {
    match d
    case Long => 0.0
    case Short => 1.0
  }

  function OptNum(v: Option<real>): Key {
    if v.Some? then Num(v.value) else Null
  }

  function OptTime(v: Option<int>): Key {
    if v.Some? then Num(v.value as real) else Null
  }

  /** The value of column `f` in trade `t`. */
  function SortKey(t: Trade, f: SortField): (k: Key)
    ensures f == ByCreatedAt ==> k == Num(t.createdAt as real)
    ensures k.Null? ==> f in {ByDateOpened, ByDateClosed, ByResult, ByProfitLoss, ByNotes}
  {
    match f
    case ById => Text(t.id)
    case ByUserId => Text(t.userId)
    case ByStrategyId => Text(t.strategyId)
    case ByStatus => Num(StatusRank(t.status))
    case ByAsset => Text(t.asset)
    case ByDateOpened => OptTime(t.dateOpened)
    case ByDateClosed => OptTime(t.dateClosed)
    case ByDirection => Num(DirectionRank(t.direction))
    case ByResult => if t.result.Some? then Num(ResultRank(t.result.value)) else Null
    case ByProfitLoss => OptNum(t.profitLoss)
    case ByNotes => if t.notes.Some? then Text(t.notes.value) else Null
    case ByIsBacktest => Num(if t.isBacktest then 1.0 else 0.0)
    case ByCreatedAt => Num(t.createdAt as real)
    case ByUpdatedAt => Num(t.updatedAt as real)
  }

  // ---------------------------------------------------------------- sorting

  /** `a` may come before `b` in the requested order. */
  predicate InOrder(a: Trade, b: Trade, f: SortField, desc: bool) {
    if desc then KeyLe(SortKey(b, f), SortKey(a, f)) else KeyLe(SortKey(a, f), SortKey(b, f))
  }

  lemma InOrderTotal(a: Trade, b: Trade, f: SortField, desc: bool)
    ensures InOrder(a, b, f, desc) || InOrder(b, a, f, desc)
  {
    KeyLeTotal(SortKey(a, f), SortKey(b, f));
  }

  lemma InOrderTrans(a: Trade, b: Trade, c: Trade, f: SortField, desc: bool)
    requires InOrder(a, b, f, desc) && InOrder(b, c, f, desc)
    ensures InOrder(a, c, f, desc)
  {
    if desc {
      KeyLeTrans(SortKey(c, f), SortKey(b, f), SortKey(a, f));
    } else {
      KeyLeTrans(SortKey(a, f), SortKey(b, f), SortKey(c, f));
    }
  }

  predicate Sorted(s: seq<Trade>, f: SortField, desc: bool) {
    forall i, j :: 0 <= i < j < |s| ==> InOrder(s[i], s[j], f, desc)
  }

  /** Putting `t` in front keeps the order when `t` may precede the first element. */
  lemma PrependSorted(t: Trade, s: seq<Trade>, f: SortField, desc: bool)
    requires Sorted(s, f, desc) && |s| > 0 && InOrder(t, s[0], f, desc)
    ensures Sorted([t] + s, f, desc)
  {
    var r := [t] + s;
    forall i, j | 0 <= i < j < |r|
      ensures InOrder(r[i], r[j], f, desc)
    {
      if i == 0 && j > 1 {
        InOrderTrans(t, s[0], s[j - 1], f, desc);
      }
    }
  }

  /** Putting the first element before a sorted rest keeps the order when it
      may precede everything in the rest. */
  lemma ConsSorted(x: Trade, rest: seq<Trade>, f: SortField, desc: bool)
    requires Sorted(rest, f, desc)
    requires forall y :: y in rest ==> InOrder(x, y, f, desc)
    ensures Sorted([x] + rest, f, desc)
  {
    var r := [x] + rest;
    forall i, j | 0 <= i < j < |r|
      ensures InOrder(r[i], r[j], f, desc)
    {
      assert r[j] == rest[j - 1];
      if i > 0 {
        assert r[i] == rest[i - 1];
      }
    }
  }

  /** The head of a sorted list precedes everything of its tail, and `t` too. */
  lemma HeadPrecedesInserted(t: Trade, s: seq<Trade>, rest: seq<Trade>, f: SortField, desc: bool)
    requires |s| > 0 && Sorted(s, f, desc) && InOrder(s[0], t, f, desc)
    requires multiset(rest) == multiset(s[1..]) + multiset{t}
    ensures forall y :: y in rest ==> InOrder(s[0], y, f, desc)
  {
    forall y | y in rest
      ensures InOrder(s[0], y, f, desc)
    {
      assert y in multiset(rest);
      if y != t {
        assert y in multiset(s[1..]);
        var j :| 0 <= j < |s[1..]| && s[1..][j] == y;
        assert s[j + 1] == y;
      }
    }
  }

  /** Puts `t` in front of the first element it may precede. */
  function Insert(t: Trade, s: seq<Trade>, f: SortField, desc: bool): (r: seq<Trade>)
    requires Sorted(s, f, desc)
    ensures multiset(r) == multiset(s) + multiset{t}
    ensures Sorted(r, f, desc)
  {
    if |s| == 0 then [t]
    else if InOrder(t, s[0], f, desc) then
      PrependSorted(t, s, f, desc);
      [t] + s
    else
      InOrderTotal(t, s[0], f, desc);
      var rest := Insert(t, s[1..], f, desc);
      HeadPrecedesInserted(t, s, rest, f, desc);
      ConsSorted(s[0], rest, f, desc);
      assert s == [s[0]] + s[1..];
      assert multiset([s[0]] + rest) == multiset{s[0]} + multiset(rest);
      [s[0]] + rest
  }

  /** Inserting the head of `s` into a sorted permutation of its tail gives a permutation of `s`. */
  lemma InsertHeadKeepsElements(s: seq<Trade>, rest: seq<Trade>, f: SortField, desc: bool)
    requires |s| > 0 && Sorted(rest, f, desc) && multiset(rest) == multiset(s[1..])
    ensures multiset(Insert(s[0], rest, f, desc)) == multiset(s)
    ensures |Insert(s[0], rest, f, desc)| == |s|
  {
    var r := Insert(s[0], rest, f, desc);
    assert s == [s[0]] + s[1..];
    assert |r| == |multiset(r)|;
  }

  /** Insertion sort on the column and direction a request names. */
  function SortTrades(s: seq<Trade>, f: SortField, desc: bool): (r: seq<Trade>)
    ensures multiset(r) == multiset(s)
    ensures |r| == |s|
    ensures Sorted(r, f, desc)
  {
    if |s| == 0 then []
    else
      var rest := SortTrades(s[1..], f, desc);
      InsertHeadKeepsElements(s, rest, f, desc);
      Insert(s[0], rest, f, desc)
  }

  /** Descending order is ascending order read backwards. */
  lemma {:induction false} DescendingIsReversedAscending(s: seq<Trade>, f: SortField)
    ensures Sorted(s, f, true) <==> Sorted(Reverse(s), f, false)
  {
    var r := Reverse(s);
    if Sorted(s, f, true) {
      forall i, j | 0 <= i < j < |r|
        ensures InOrder(r[i], r[j], f, false)
      {
        assert r[i] == s[|s| - 1 - i] && r[j] == s[|s| - 1 - j];
      }
    }
    if Sorted(r, f, false) {
      forall i, j | 0 <= i < j < |s|
        ensures InOrder(s[i], s[j], f, true)
      {
        assert s[i] == r[|s| - 1 - i] && s[j] == r[|s| - 1 - j];
      }
    }
  }

  function Reverse(s: seq<Trade>): (r: seq<Trade>)
    ensures |r| == |s| && forall i :: 0 <= i < |s| ==> r[i] == s[|s| - 1 - i]
  {
    seq(|s|, i requires 0 <= i < |s| => s[|s| - 1 - i])
  }
}
