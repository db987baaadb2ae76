/** The relational schema of the journal: the enumerations, the three tables the
    core touches (strategy, custom_field, trade) and the user table they hang
    off, as an immutable in-memory store. The database's own guarantees
    (primary keys, foreign keys with cascading deletes, the per-user unique
    strategy name, column defaults) become predicates and store functions here. */
module Schema {
  import opened Wrappers
  import opened Text

  type Id = string
  type UserId = string

  // ---------------------------------------------------------------- enums

  datatype FieldType = TextField | SelectField | MultiSelectField
  datatype TradeStatus = OrderPlaced | Open | Closed
  datatype TradeResult = Win | BreakEven | Loss
  datatype Instrument = Forex | Crypto | Stocks
  datatype Direction = Long | Short

  function FieldTypeName(t: FieldType): string {
    match t
    case TextField => "text"
    case SelectField => "select"
    case MultiSelectField => "multi-select"
  }

  /** Reads a `field_type` enum value; nothing outside the three declared names parses. */
  function ParseFieldType(s: string): (r: Option<FieldType>)
    ensures r.Some? <==> (s == "text" || s == "select" || s == "multi-select")
    ensures r.Some? ==> FieldTypeName(r.value) == s
    ensures forall t :: s == FieldTypeName(t) ==> r == Some(t)
  {
    if s == "text" then Some(TextField)
    else if s == "select" then Some(SelectField)
    else if s == "multi-select" then Some(MultiSelectField)
    else None
  }

  function StatusName(t: TradeStatus): string {
    match t
    case OrderPlaced => "order_placed"
    case Open => "open"
    case Closed => "closed"
  }

  /** Reads a `trade_status` enum value. */
  function ParseStatus(s: string): (r: Option<TradeStatus>)
    ensures r.Some? <==> (s == "order_placed" || s == "open" || s == "closed")
    ensures r.Some? ==> StatusName(r.value) == s
    ensures forall t :: s == StatusName(t) ==> r == Some(t)
  {
    if s == "order_placed" then Some(OrderPlaced)
    else if s == "open" then Some(Open)
    else if s == "closed" then Some(Closed)
    else None
  }

  function ResultName(t: TradeResult): string {
    match t
    case Win => "win"
    case BreakEven => "break_even"
    case Loss => "loss"
  }

  /** Reads a `trade_result` enum value. */
  function ParseResult(s: string): (r: Option<TradeResult>)
    ensures r.Some? <==> (s == "win" || s == "break_even" || s == "loss")
    ensures r.Some? ==> ResultName(r.value) == s
    ensures forall t :: s == ResultName(t) ==> r == Some(t)
  {
    if s == "win" then Some(Win)
    else if s == "break_even" then Some(BreakEven)
    else if s == "loss" then Some(Loss)
    else None
  }

  function InstrumentName(t: Instrument): string {
    match t
    case Forex => "forex"
    case Crypto => "crypto"
    case Stocks => "stocks"
  }

  /** Reads an `instrument` enum value. */
  function ParseInstrument(s: string): (r: Option<Instrument>)
    ensures r.Some? <==> (s == "forex" || s == "crypto" || s == "stocks")
    ensures r.Some? ==> InstrumentName(r.value) == s
    ensures forall t :: s == InstrumentName(t) ==> r == Some(t)
  {
    if s == "forex" then Some(Forex)
    else if s == "crypto" then Some(Crypto)
    else if s == "stocks" then Some(Stocks)
    else None
  }

  /** The declaration order of `instrument`, which is also the order of the UI's options. */
  const Instruments: seq<Instrument> := [Forex, Crypto, Stocks]

  function DirectionName(t: Direction): string {
    match t
    case Long => "long"
    case Short => "short"
  }

  /** Reads a `direction` enum value. */
  function ParseDirection(s: string): (r: Option<Direction>)
    ensures r.Some? <==> (s == "long" || s == "short")
    ensures r.Some? ==> DirectionName(r.value) == s
    ensures forall t :: s == DirectionName(t) ==> r == Some(t)
  {
    if s == "long" then Some(Long)
    else if s == "short" then Some(Short)
    else None
  }

  // ---------------------------------------------------------------- ids

  predicate IsHexDigit(c: char) {
    IsDigit(c) || ('a' <= c <= 'f') || ('A' <= c <= 'F')
  }

  /** The textual UUID shape (8-4-4-4-12 hexadecimal digits) that the input
      schemas demand of ids and that the uuid columns accept in comparisons. */
  predicate IsUuid(s: string) {
    && |s| == 36
    && forall i :: 0 <= i < |s| ==>
         if i == 8 || i == 13 || i == 18 || i == 23 then s[i] == '-' else IsHexDigit(s[i])
  }

  // ---------------------------------------------------------------- rows

  /** A value of a trade's `custom_values` JSON object. */
  datatype CustomValue = Scalar(text: string) | List(items: seq<string>)

  datatype Strategy = Strategy(
    id: Id,
    userId: UserId,
    name: string,
    description: Option<string>,
    instrument: Instrument,
    createdAt: int,
    updatedAt: int)

  datatype CustomField = CustomField(
    id: Id,
    strategyId: Id,
    name: string,
    fieldType: FieldType,
    options: Option<seq<string>>,
    required: bool)

  /** A trade row. `customValues` is a map, never absent: the column is NOT NULL. */
  datatype Trade = Trade(
    id: Id,
    userId: UserId,
    strategyId: Id,
    status: TradeStatus,
    asset: string,
    dateOpened: Option<int>,
    dateClosed: Option<int>,
    direction: Direction,
    result: Option<TradeResult>,
    profitLoss: Option<real>,
    notes: Option<string>,
    isBacktest: bool,
    customValues: map<string, CustomValue>,
    createdAt: int,
    updatedAt: int)

  /** The values an INSERT into `trade` names; the ones left `None` take the column default. */
  datatype TradeValues = TradeValues(
    userId: UserId,
    strategyId: Id,
    status: Option<TradeStatus>,
    asset: string,
    dateOpened: Option<int>,
    dateClosed: Option<int>,
    direction: Direction,
    result: Option<TradeResult>,
    profitLoss: Option<real>,
    notes: Option<string>,
    isBacktest: Option<bool>,
    customValues: map<string, CustomValue>)

  /** The row an INSERT produces: `status` defaults to order_placed, `is_backtest`
      to false, both timestamps to the current time. */
  function InsertedTrade(id: Id, v: TradeValues, now: int): (t: Trade)
    ensures t.id == id && t.userId == v.userId && t.strategyId == v.strategyId
    ensures v.status.None? ==> t.status == OrderPlaced
    ensures v.status.Some? ==> t.status == v.status.value
    ensures v.isBacktest.None? ==> !t.isBacktest
    ensures v.isBacktest.Some? ==> t.isBacktest == v.isBacktest.value
    ensures t.asset == v.asset && t.direction == v.direction
    ensures t.dateOpened == v.dateOpened && t.dateClosed == v.dateClosed
    ensures t.result == v.result && t.profitLoss == v.profitLoss && t.notes == v.notes
    ensures t.customValues == v.customValues
    ensures t.createdAt == now && t.updatedAt == now
  {
    Trade(id, v.userId, v.strategyId, v.status.GetOr(OrderPlaced), v.asset, v.dateOpened,
          v.dateClosed, v.direction, v.result, v.profitLoss, v.notes, v.isBacktest.GetOr(false),
          v.customValues, now, now)
  }

  // ---------------------------------------------------------------- store

  datatype Store = Store(
    users: set<UserId>,
    strategies: map<Id, Strategy>,
    fields: map<Id, CustomField>,
    trades: map<Id, Trade>)

  /** Every row is filed under its own primary key. */
  ghost predicate KeysMatch(st: Store) {
    && (forall k :: k in st.strategies ==> st.strategies[k].id == k)
    && (forall k :: k in st.fields ==> st.fields[k].id == k)
    && (forall k :: k in st.trades ==> st.trades[k].id == k)
  }

  /** The foreign keys: strategy → user, custom_field → strategy, trade → user and strategy. */
  ghost predicate ReferencesResolve(st: Store) {
    && (forall k :: k in st.strategies ==> st.strategies[k].userId in st.users)
    && (forall k :: k in st.fields ==> st.fields[k].strategyId in st.strategies)
    && (forall k :: k in st.trades ==> st.trades[k].strategyId in st.strategies)
    && (forall k :: k in st.trades ==> st.trades[k].userId in st.users)
  }

  /** The unique index on (user_id, name): no two strategies of one user share a name. */
  ghost predicate NamesUnique(st: Store) {
    forall a, b :: a in st.strategies && b in st.strategies && a != b
      && st.strategies[a].userId == st.strategies[b].userId
      ==> st.strategies[a].name != st.strategies[b].name
  }

  /** What the database itself enforces. */
  ghost predicate WellFormed(st: Store) {
    KeysMatch(st) && ReferencesResolve(st) && NamesUnique(st)
  }

  /** An application-level invariant the actions keep: a trade's owner is its strategy's owner. */
  ghost predicate OwnersAgree(st: Store)
    requires ReferencesResolve(st)
  {
    forall k :: k in st.trades ==> st.trades[k].userId == st.strategies[st.trades[k].strategyId].userId
  }

  /** Whether `user` already has a strategy called `name` other than `except`. */
  predicate NameTaken(st: Store, user: UserId, name: string, except: Option<Id>) {
    exists k :: k in st.strategies && Some(k) != except
      && st.strategies[k].userId == user && st.strategies[k].name == name
  }

  /** Whether `id` is a strategy that belongs to `user`. */
  predicate OwnsStrategy(st: Store, user: UserId, id: Id) {
    id in st.strategies && st.strategies[id].userId == user
  }

  /** Whether `id` is a trade that belongs to `user`. */
  predicate OwnsTrade(st: Store, user: UserId, id: Id) {
    id in st.trades && st.trades[id].userId == user
  }

  /** The ids of the custom fields that reference strategy `sid`. */
  function FieldIdsOf(fields: map<Id, CustomField>, sid: Id): (r: set<Id>)
    ensures forall k :: k in r <==> k in fields && fields[k].strategyId == sid
  {
    set k | k in fields && fields[k].strategyId == sid
  }

  /** Deleting a strategy row: the ON DELETE CASCADE of custom_field and trade
      takes every row that references it along. */
  function RemoveStrategy(st: Store, sid: Id): (r: Store)
    ensures r.users == st.users
    ensures r.strategies.Keys == st.strategies.Keys - {sid}
    ensures forall k :: k in r.strategies ==> r.strategies[k] == st.strategies[k]
    ensures forall k :: k in r.fields <==> k in st.fields && st.fields[k].strategyId != sid
    ensures forall k :: k in r.fields ==> r.fields[k] == st.fields[k]
    ensures forall k :: k in r.trades <==> k in st.trades && st.trades[k].strategyId != sid
    ensures forall k :: k in r.trades ==> r.trades[k] == st.trades[k]
  {
    Store(st.users,
          st.strategies - {sid},
          map k | k in st.fields && st.fields[k].strategyId != sid :: st.fields[k],
          map k | k in st.trades && st.trades[k].strategyId != sid :: st.trades[k])
  }

  /** The cascade leaves no row pointing at the deleted strategy, so the store stays well formed. */
  lemma RemoveStrategyKeepsWellFormed(st: Store, sid: Id)
    requires WellFormed(st)
    ensures WellFormed(RemoveStrategy(st, sid))
    ensures OwnersAgree(st) ==> OwnersAgree(RemoveStrategy(st, sid))
  {
    var r := RemoveStrategy(st, sid);
    assert KeysMatch(r);
    RemoveStrategyResolves(st, sid);
    assert NamesUnique(r);
    if OwnersAgree(st) {
      RemoveStrategyKeepsOwners(st, sid);
    }
  }

  lemma RemoveStrategyResolves(st: Store, sid: Id)
    requires ReferencesResolve(st)
    ensures ReferencesResolve(RemoveStrategy(st, sid))
  {
    var r := RemoveStrategy(st, sid);
    forall k | k in r.fields
      ensures r.fields[k].strategyId in r.strategies
    {
      assert r.fields[k] == st.fields[k];
    }
    forall k | k in r.trades
      ensures r.trades[k].strategyId in r.strategies && r.trades[k].userId in r.users
    {
      assert r.trades[k] == st.trades[k];
    }
  }

  lemma RemoveStrategyKeepsOwners(st: Store, sid: Id)
    requires ReferencesResolve(st) && OwnersAgree(st)
    ensures ReferencesResolve(RemoveStrategy(st, sid)) && OwnersAgree(RemoveStrategy(st, sid))
  {
    var r := RemoveStrategy(st, sid);
    RemoveStrategyResolves(st, sid);
    forall k | k in r.trades
      ensures r.trades[k].userId == r.strategies[r.trades[k].strategyId].userId
    {
      assert r.trades[k] == st.trades[k];
    }
  }

  /** Deleting one trade row: no table references trades, so nothing cascades. */
  function RemoveTrade(st: Store, id: Id): (r: Store)
    ensures r.users == st.users && r.strategies == st.strategies && r.fields == st.fields
    ensures r.trades.Keys == st.trades.Keys - {id}
    ensures forall k :: k in r.trades ==> r.trades[k] == st.trades[k]
  {
    st.(trades := st.trades - {id})
  }

  lemma RemoveTradeKeepsWellFormed(st: Store, id: Id)
    ensures WellFormed(st) ==> WellFormed(RemoveTrade(st, id))
    ensures WellFormed(st) && OwnersAgree(st) ==> OwnersAgree(RemoveTrade(st, id))
  {
  }

  /** Writing the trade row `t` under its own key, when its owner and strategy
      exist, keeps what the database enforces; it keeps owners in agreement
      when the trade's owner is its strategy's owner. */
  lemma PutTradeKeepsWellFormed(st: Store, k: Id, t: Trade)
    ensures WellFormed(st) && t.id == k && t.strategyId in st.strategies && t.userId in st.users ==>
              WellFormed(st.(trades := st.trades[k := t]))
    ensures WellFormed(st) && t.id == k && t.strategyId in st.strategies && t.userId in st.users
            && OwnersAgree(st) && st.strategies[t.strategyId].userId == t.userId ==>
              OwnersAgree(st.(trades := st.trades[k := t]))
  {
  }

  /** Deleting a user row: strategies and trades cascade from the user, custom
      fields and further trades cascade from those strategies. */
  function RemoveUser(st: Store, uid: UserId): (r: Store)
    ensures r.users == st.users - {uid}
    ensures forall k :: k in r.strategies <==> k in st.strategies && st.strategies[k].userId != uid
    ensures forall k :: k in r.strategies ==> r.strategies[k] == st.strategies[k]
    ensures forall k :: k in r.fields <==> k in st.fields && st.fields[k].strategyId in r.strategies
    ensures forall k :: k in r.fields ==> r.fields[k] == st.fields[k]
    ensures forall k :: k in r.trades <==>
              (k in st.trades && st.trades[k].userId != uid && st.trades[k].strategyId in r.strategies)
    ensures forall k :: k in r.trades ==> r.trades[k] == st.trades[k]
  {
    var strategies := map k | k in st.strategies && st.strategies[k].userId != uid :: st.strategies[k];
    Store(st.users - {uid},
          strategies,
          map k | k in st.fields && st.fields[k].strategyId in strategies :: st.fields[k],
          map k | k in st.trades && st.trades[k].userId != uid && st.trades[k].strategyId in strategies
                :: st.trades[k])
  }

  /** After deleting a user nothing of theirs is left, and the store stays well formed. */
  lemma RemoveUserRemovesEverything(st: Store, uid: UserId)
    requires WellFormed(st)
    ensures WellFormed(RemoveUser(st, uid))
    ensures forall k :: k in RemoveUser(st, uid).strategies ==> RemoveUser(st, uid).strategies[k].userId != uid
    ensures forall k :: k in RemoveUser(st, uid).trades ==> RemoveUser(st, uid).trades[k].userId != uid
  {
  }
}
