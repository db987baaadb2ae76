# Trading journal core, modelled in Dafny

This project models the logic of a trading-journal web application. Users keep
**strategies** (a name, an instrument and a list of **custom fields**) and log
**trades** against them, either live or as backtests. The model covers:

- the database schema: its enums, defaults, the unique strategy name per user,
  and cascading deletes;
- both copies of the strategy server actions and both copies of the trade
  server actions, with their ownership gates, validation and error replies;
- the trade listing endpoint, the "recent trades" query and the
  strategy-by-name lookup;
- the pure helpers the UI relies on: slugs, asset tables, the trade form's
  date and sign handling, the trades table's request and labels, and the
  avatar initials.

The store is immutable: maps of strategies, custom fields and trades keyed by
id, plus the set of users. Every action is a function from a store and a
request to a reply and the store it leaves behind. A transaction that the
database refuses leaves the store unchanged.

Modules, one per file:

| file | module | what it holds |
|---|---|---|
| wrappers.dfy | Wrappers | `Option`, `Result` |
| text.dfy | Text | white space, ASCII case mapping, `trim`, decimal rendering |
| schema.dfy | Schema | enums, rows, the store, its well-formedness, cascading deletes |
| forms.dfy | Forms | `FormData` reads (`get` and `Object.fromEntries`), zod error maps, replies |
| slugs.dfy | Slugs | `createSlug`, `slugToReadable` |
| assets.dfy | Assets | asset tables, `getAssetsByInstrument`, `instrumentOptions` |
| profile.dfy | Profile | avatar initials |
| strategy_common.dfy | StrategyCommon | strategy schemas, form reading, `createStrategy`, the update's strategy row |
| lib_strategy_actions.dfy | LibStrategyActions | id-based custom-field reconciliation, update and delete that throw |
| server_strategy_actions.dfy | ServerStrategyActions | delete-all-then-recreate update, delete by id |
| trade_common.dfy | TradeCommon | trade form reading, trade schema, create/update/delete transactions |
| lib_trade_actions.dfy | LibTradeActions | the trade actions the form uses |
| server_trade_actions.dfy | ServerTradeActions | the copy with the profit/loss sign check |
| ordering.dfy | Ordering | `ORDER BY` on trade columns, insertion sort |
| trade_queries.dfy | TradeQueries | `GET /api/trades`, recent trades, strategy by name |
| trade_form_ui.dfy | TradeFormUi | trade form: date sync, sign correction, field ids, submission |
| trades_table.dfy | TradesTable | trades table: request, labels, custom columns |

JavaScript built-ins that the model cannot express are parameters:

- `JSON.parse` of custom fields and custom values;
- `parseFloat`;
- `new Date(text)` and `toISOString`;
- the clock;
- the database's key generator.

## Model

| member | source | states |
|---|---|---|
| Schema.ParseFieldType | lib/db/drizzle/schema.ts:66-70 | exactly "text", "select" and "multi-select" parse, each back to the name it was read from |
| Schema.ParseStatus | lib/db/drizzle/schema.ts:71-75 | exactly the three trade statuses parse, and parsing inverts the status name |
| Schema.ParseResult | lib/db/drizzle/schema.ts:76-80 | exactly "win", "break_even" and "loss" parse, and parsing inverts the result name |
| Schema.ParseInstrument | lib/db/drizzle/schema.ts:81-85 | exactly "forex", "crypto" and "stocks" parse, and parsing inverts the instrument name |
| Schema.ParseDirection | lib/db/drizzle/schema.ts:86 | exactly "long" and "short" parse, and parsing inverts the direction name |
| Schema.InsertedTrade | lib/db/drizzle/schema.ts:138-149 | an insert without a status stores order_placed, without isBacktest stores false; every other named column is stored as given and both timestamps get the insert time |
| Schema.FieldIdsOf | lib/db/drizzle/schema.ts:116-118 | the custom fields of a strategy are exactly the rows whose strategy_id references it |
| Schema.RemoveStrategy | lib/db/drizzle/schema.ts:116-137 | deleting a strategy removes it, every custom field and every trade that references it, and nothing else |
| Schema.RemoveStrategyKeepsWellFormed | lib/db/drizzle/schema.ts:104-137 | after the cascade no row references the deleted strategy: keys, foreign keys and the unique name index still hold |
| Schema.RemoveTrade | lib/db/drizzle/schema.ts:128-155 | deleting a trade removes that one row; no table references trades, so nothing cascades |
| Schema.RemoveUser | lib/db/drizzle/schema.ts:89-137 | deleting a user removes the user's strategies, exactly the custom fields of removed strategies, and every trade that is the user's or belongs to a removed strategy; surviving rows are unchanged |
| Schema.RemoveUserRemovesEverything | lib/db/drizzle/schema.ts:93-95 | after deleting a user no strategy or trade of theirs remains and the store stays well formed |
| Text.Trim | lib/utils.ts:16 | the trimmed text neither starts nor ends with white space and holds only characters of the input; text that already does neither is unchanged |
| Text.TrimEmptyIffAllWhitespace | lib/db/actions/trades.ts:101-102 | trimming leaves nothing exactly when the text is white space throughout |
| Text.TrimPadded | lib/utils.ts:16 | white space added at either end never reaches the trimmed text |
| Text.NatToString | components/trades/trades-table.tsx:120 | a number renders as a non-empty string of decimal digits |
| Text.NatToStringRoundTrip | components/trades/trade-form.tsx:467 | reading the digits back gives the number |
| Text.NatToStringInjective | components/trades/trade-form.tsx:467 | different numbers never render alike |
| Forms.FormGetFindsFirst | lib/db/actions/trades.ts:82 | `get` finds a value exactly when some entry has the key, and it is the first such entry's value |
| Forms.FormEntryFindsLast | lib/db/actions/trades.ts:78 | `Object.fromEntries` has a value exactly when some entry has the key, and it is the last such entry's value |
| Forms.GetAgreesWithEntryOnSingleEntries | lib/db/actions/trades.ts:78-82 | on a form with one entry per key, `get` and `fromEntries` read the same value |
| Forms.EntryAfterAppend | components/trades/trade-form.tsx:163-186 | an appended entry is what `fromEntries` reads under its key; other keys are unaffected |
| Forms.GetAfterAppend | components/trades/trade-form.tsx:163-186 | `get` still reads an earlier entry's value, and sees an appended value only under a key that had none |
| Forms.Appended | components/trades/trade-form.tsx:163-186 | `append` seen through both readers, for every key |
| Forms.BoolText | components/trades/trade-form.tsx:177 | a boolean renders as "true" exactly when it is true |
| Forms.OrNull | lib/db/actions/strategies.ts:107 | `v \|\| null` keeps a non-empty value and turns "" and an absent value into null |
| Forms.RequiredString | lib/db/actions/strategies.ts:21-23 | a required string reports no issue exactly when it is present and non-empty |
| Slugs.HyphenateWhitespace | lib/utils.ts:17 | after replacing white-space runs by "-" no white space is left, and no other character appears |
| Slugs.HyphenateWithoutWhitespace | lib/utils.ts:17 | text without white space passes unchanged |
| Slugs.KeepSlugChars | lib/utils.ts:18 | only word characters and hyphens of the input remain |
| Slugs.KeepSlugCharsOfSlugChars | lib/utils.ts:18 | text made only of word characters and hyphens passes unchanged |
| Slugs.CollapseHyphens | lib/utils.ts:19 | no two hyphens stay adjacent, and the first character is kept |
| Slugs.CollapseWithoutDoubleHyphen | lib/utils.ts:19 | text without a double hyphen passes unchanged |
| Slugs.CreateSlug | lib/utils.ts:13-20 | a slug is lower case, holds only word characters and hyphens, and never two hyphens in a row |
| Slugs.SlugHasNoWhitespace | lib/utils.ts:16-18 | a slug has no white space |
| Slugs.SlugIsFixpoint | lib/utils.ts:13-20 | a slug is its own slug |
| Slugs.CreateSlugIdempotent | lib/utils.ts:13-20 | slugging twice equals slugging once |
| Slugs.CreateSlugIgnoresPadding | lib/utils.ts:15-16 | leading and trailing white space does not change the slug |
| Slugs.Unhyphenate | lib/utils.ts:28 | every hyphen becomes a space and every other character stays, position by position |
| Slugs.CapitalizeWords | lib/utils.ts:28 | exactly the first character of each word is upper-cased |
| Slugs.SlugToReadable | lib/utils.ts:27-29 | the readable form has the slug's length and no hyphen, and each word starts with a capital |
| Slugs.HyphenateUnhyphenated | lib/utils.ts:17-28 | turning the spaces of an unhyphenated slug back into hyphens restores it |
| Slugs.LowerOfReadable | lib/utils.ts:27-29 | lower-casing the readable form of a lower-case slug gives the unhyphenated slug |
| Slugs.ReadableRoundTrip | lib/utils.ts:13-29 | `createSlug` undoes `slugToReadable` on every slug without a hyphen at either end |
| Assets.Options | lib/constants/assets.ts:24-163 | one option per value, each labelled with its own value |
| Assets.TablesShape | lib/constants/assets.ts:20-173 | forex has 29 pairs of the form BASE/QUOTE, crypto is [BTC], stocks is [AAPL], and every label equals its value |
| Assets.AssetsByName | lib/constants/assets.ts:180-185 | an instrument name in any case finds that instrument's table; any other text finds nothing |
| Assets.AssetsByNameIgnoresCase | lib/constants/assets.ts:183 | two names equal up to case give the same table |
| Assets.AssetsByNameFindsEveryInstrument | lib/constants/assets.ts:169-185 | each instrument's name, lower or upper case, finds its own table |
| Assets.AssetsByNameAsWritten | lib/constants/assets.ts:184 | the bracket lookup yields an inherited prototype member exactly for "constructor" and "\_\_proto\_\_" in any case, and otherwise the intended table |
| Assets.AsWrittenLeaksPrototype | lib/constants/assets.ts:184 | "Constructor" yields a non-list where the intended lookup yields [] |
| Assets.Capitalize | lib/constants/assets.ts:192 | the first character is upper-cased and the rest is kept |
| Assets.InstrumentOptions | lib/constants/assets.ts:190-193 | one option per instrument, in declaration order, valued by its name |
| Assets.LowerOfCapitalize | lib/constants/assets.ts:192 | lower-casing undoes the capitalisation of a lower-case word |
| Assets.InstrumentOptionLabels | lib/constants/assets.ts:190-193 | every label is the capitalised value and, fed back to the lookup, finds that instrument's table |
| Profile.InitialsSource | components/sidebar-user-profile.tsx:36 | the name if non-empty, else the email if non-empty, else "" |
| Profile.Split | components/sidebar-user-profile.tsx:37 | `split(" ")` gives at least one piece and no piece holds a space |
| Profile.JoinSplit | components/sidebar-user-profile.tsx:37 | joining the pieces with spaces gives the text back |
| Profile.FirstChars | components/sidebar-user-profile.tsx:38-39 | at most one character per piece |
| Profile.FirstCharsLength | components/sidebar-user-profile.tsx:38-39 | exactly one character per non-empty piece: empty pieces add nothing |
| Profile.Initials | components/sidebar-user-profile.tsx:36-40 | the initials contain no lower-case ASCII letter |
| Profile.WordStarts | components/sidebar-user-profile.tsx:36-39 | the reference reading picks only characters of the text that are not spaces |
| Profile.FirstCharsOfSplit | components/sidebar-user-profile.tsx:37-39 | the first characters of the split pieces are the characters that start a word |
| Profile.InitialsAreWordStarts | components/sidebar-user-profile.tsx:36-40 | the initials are the upper-cased word starts, as many as there are non-empty pieces, with no space; an empty source gives "" |
| StrategyCommon.ReadStrategyForm | lib/db/actions/strategies.ts:61-83 | a non-empty customFields entry that does not parse fails with "Invalid custom fields data"; otherwise the scalars are the form's last entries and an absent list reads as [] |
| StrategyCommon.FieldIssues | lib/db/actions/strategies.ts:12-18 | a field reports no issue exactly when its name is non-empty and its type is one of the three field types |
| StrategyCommon.FieldsIssues | lib/db/actions/strategies.ts:24 | a list reports no issue exactly when every field is valid |
| StrategyCommon.ToSpec | lib/db/actions/strategies.ts:12-18 | a valid field keeps its id, name, type and options, and an absent required reads as false |
| StrategyCommon.ValidateStrategy | lib/db/actions/strategies.ts:20-29 | validation passes exactly when name, instrument (and id on update) are present and non-empty and every field is valid; otherwise exactly the failing keys are reported, an empty name with "Strategy name is required" and an empty instrument with "Instrument is required" |
| StrategyCommon.StoredOptions | lib/db/actions/strategies.ts:120-121 | options are stored exactly when present and non-empty |
| StrategyCommon.FieldRow | lib/db/actions/strategies.ts:116-123 | the row points at the strategy, keeps name, type and required, and never stores an empty options list |
| StrategyCommon.DistinctCard | lib/db/actions/strategies.ts:114-127 | a sequence of distinct keys has as many elements as positions |
| StrategyCommon.Rows | lib/db/actions/strategies.ts:115-124 | one row per submitted field, in order |
| StrategyCommon.InsertRows | lib/db/actions/strategies.ts:126 | the inserted rows appear under their keys and every other row stays |
| StrategyCommon.NewStrategy | lib/db/actions/strategies.ts:104-111 | the new row has the caller as owner, the name, the description or null, and the insert time on both timestamps |
| StrategyCommon.InsertStrategy | lib/db/actions/strategies.ts:101-127 | the insert succeeds exactly when the user exists, the instrument parses, the name is free and the keys are unused; then the strategy and one field per submitted field are written |
| StrategyCommon.CreatedFieldCount | lib/db/actions/strategies.ts:114-127 | the new strategy has exactly as many custom fields as were submitted |
| StrategyCommon.CreatedKeepsWellFormed | lib/db/actions/strategies.ts:101-127 | the create keeps keys, foreign keys, the unique name index and owner agreement |
| StrategyCommon.UpdatedRow | lib/db/actions/strategies.ts:202-211 | the update changes name, description (empty to null), instrument and updatedAt, and never the id, owner or createdAt |
| StrategyCommon.UpdateStrategyRow | lib/db/actions/strategies.ts:202-211 | the row update succeeds exactly when the instrument parses and no other strategy of the owner has the name |
| StrategyCommon.FieldsBecomeCount | lib/db/actions/strategies.ts:253-275 | once the fields became the submitted list, the strategy has exactly as many fields as were submitted |
| StrategyCommon.Commit | lib/db/actions/strategies.ts:201-286 | the update transaction swaps in the strategy row and the new field table and leaves users and trades alone |
| StrategyCommon.CommitKeepsWellFormed | lib/db/actions/strategies.ts:201-286 | the committed update keeps the store well formed and owners in agreement |
| StrategyCommon.CreateStrategy | lib/db/actions/strategies.ts:39-144 | no session or an empty form fails with no write; bad JSON or invalid data fails with the matching message; parsed data goes on to the validate-and-insert step; it succeeds exactly when the form parses, validates and the insert is accepted, and success writes the strategy with its fields and keeps the store well formed |
| StrategyCommon.CreateWithData | lib/db/actions/strategies.ts:84-143 | invalid data fails with the form errors; valid data succeeds exactly when the insert is accepted, writes the inserted store, and a refused insert fails with the generic message and no write |
| LibStrategyActions.Classify | lib/db/actions/strategies.ts:226-251 | one action per submitted field, and an update only ever names an existing id of this strategy |
| LibStrategyActions.Leftover | lib/db/actions/strategies.ts:219-238 | the ids left for deletion are among the strategy's existing ids |
| LibStrategyActions.ClassifyCharacterized | lib/db/actions/strategies.ts:227-238 | a field updates a row exactly when its id is an existing id of this strategy that no earlier field carried; a missing, foreign or repeated id creates a new row |
| LibStrategyActions.LeftoverCharacterized | lib/db/actions/strategies.ts:253-275 | exactly the existing ids that no submitted field carries are deleted |
| LibStrategyActions.TargetIds | lib/db/actions/strategies.ts:226-266 | each field ends up under its claimed id, or else under a generated one |
| LibStrategyActions.TargetIdsDistinct | lib/db/actions/strategies.ts:227-266 | no two submitted fields end up under the same key |
| LibStrategyActions.ReconcileFields | lib/db/actions/strategies.ts:213-280 | the field reconciliation succeeds exactly when the list is empty or the generated keys are free |
| LibStrategyActions.ReconcileFieldsShape | lib/db/actions/strategies.ts:213-275 | afterwards the strategy's fields are exactly the submitted ones, and it has as many as were submitted; other strategies' fields are untouched |
| LibStrategyActions.ClaimedIdsAreTargets | lib/db/actions/strategies.ts:227-238 | every existing id that is not deleted is the key of some submitted field |
| LibStrategyActions.UpdateStrategy | lib/db/actions/strategies.ts:146-291 | no session, bad JSON and invalid data each throw their message, and a foreign or missing strategy throws the generic update failure; valid data goes on to the ownership-and-write step; success rewrites exactly the strategy's row, reconciles its fields and keeps the store well formed |
| LibStrategyActions.ApplyUpdate | lib/db/actions/strategies.ts:186-290 | the update completes exactly when the id is a UUID, the caller owns the strategy, the name is free, the instrument parses and the fields reconcile; every other case throws the generic message; success replaces that one row by the updated row and changes nothing else but its fields |
| LibStrategyActions.WriteUpdate | lib/db/actions/strategies.ts:201-287 | for an owned strategy the transaction completes exactly when the row update and the field reconciliation are both accepted; it writes the updated row, the reconciled fields, and leaves users and trades alone |
| LibStrategyActions.EmptyListDeletesAllFields | lib/db/actions/strategies.ts:276-280 | an empty field list deletes all of the strategy's fields and no other strategy's |
| LibStrategyActions.DeleteStrategy | lib/db/actions/strategies.ts:293-347 | without a session, without an id, or for a strategy the caller does not own, it throws with no write; otherwise it removes the strategy with its fields and trades |
| ServerStrategyActions.ReplaceFields | server/actions/strategies.ts:228-245 | the replacement succeeds exactly when the list is empty or the new keys are free once the old fields are gone |
| ServerStrategyActions.ReplaceFieldsShape | server/actions/strategies.ts:228-245 | afterwards the fields are exactly the submitted list, in order, under new keys; an empty list leaves none |
| ServerStrategyActions.ApplyUpdate | server/actions/strategies.ts:199-262 | a strategy the caller does not own fails with the permission message and no write; the update succeeds exactly when the id is a UUID, the caller owns the strategy, the row update and the field replacement are accepted; success replaces that one row by the row with the new name, description, instrument and updatedAt, and replaces its fields |
| ServerStrategyActions.WriteUpdate | server/actions/strategies.ts:215-262 | for an owned strategy the transaction succeeds exactly when the row update and the field replacement are accepted; it writes the updated row and the new fields, and leaves other strategies, users and trades alone |
| ServerStrategyActions.UpdateStrategy | server/actions/strategies.ts:146-263 | no session, bad JSON and invalid data fail with their messages and no write; every failure leaves the store as it was |
| ServerStrategyActions.DeleteStrategy | server/actions/strategies.ts:265-305 | succeeds exactly for a signed-in caller who owns the strategy, then removes it with its fields and trades; every failure leaves the store as it was |
| ServerStrategyActions.CopiesAgreeUpToKeys | server/actions/strategies.ts:228-245 | both update copies leave the strategy with exactly the submitted fields, in order, and leave other strategies' fields alone; only the keys differ |
| TradeCommon.NormalizeProfitLoss | lib/db/actions/trades.ts:99-103 | an absent or blank profit/loss becomes null; anything else is `parseFloat` of the trimmed text |
| TradeCommon.ProfitLossIgnoresPadding | lib/db/actions/trades.ts:101 | white space around the number never changes what is parsed |
| TradeCommon.ReadTradeForm | lib/db/actions/trades.ts:78-117 | non-empty custom values that do not parse fail with "Invalid custom values data"; otherwise isBacktest is true exactly for the text "true", an empty result is null and absent custom values read as {} |
| TradeCommon.UuidIssues | lib/db/actions/trades.ts:14 | a UUID field reports no issue exactly when it is present and UUID-shaped |
| TradeCommon.TradeErrors | lib/db/actions/trades.ts:13-45 | the flattened errors hold exactly the keys that fail, each with its issues |
| TradeCommon.TradeErrorsByKey | lib/db/actions/trades.ts:13-45 | for each key of the schema, when it fails and with which message: strategy id, status, asset, direction, result, profit/loss and id |
| TradeCommon.ValidateTrade | lib/db/actions/trades.ts:119-130 | validation passes exactly when every key is valid, then carries the enums read from the text; otherwise it returns the flattened errors |
| TradeCommon.DateColumn | lib/db/actions/trades.ts:159-164 | an empty date is stored as null, and an unparseable one makes the write fail |
| TradeCommon.NewTradeValues | lib/db/actions/trades.ts:152-178 | the insert names the caller, the strategy, the status, the asset, the direction, both converted dates, isBacktest, result, profit/loss, notes and the custom values |
| TradeCommon.InsertTrade | lib/db/actions/trades.ts:152-178 | the insert succeeds exactly when user and strategy exist, the key is free and the dates parse; the row then carries the caller's userId and every submitted column, with the dates converted |
| TradeCommon.ApplyCreate | lib/db/actions/trades.ts:134-195 | a strategy the caller does not own fails with no write; success comes exactly when the caller owns the strategy and the insert is accepted, and writes exactly the inserted row, keeping the store well formed |
| TradeCommon.UpdatedTrade | lib/db/actions/trades.ts:304-327 | the update rewrites the editable columns and never the id, userId, strategyId, isBacktest or createdAt |
| TradeCommon.ApplyUpdate | lib/db/actions/trades.ts:270-344 | it fails with no write unless the caller owns both the strategy and the trade and the dates parse; success replaces that one row by the row with every editable column set from the form and the dates converted, keeping its identity |
| TradeCommon.DeleteTrade | lib/db/actions/trades.ts:347-407 | succeeds exactly when the caller owns the strategy and the trade, then removes that one trade and nothing else |
| LibTradeActions.CreateTrade | lib/db/actions/trades.ts:55-196 | no session or an empty form fails with no write; unparseable custom values or invalid data fail with their messages; parsed data goes on to the validate-and-create step; success inserts one trade owned by the caller |
| LibTradeActions.CreateWithData | lib/db/actions/trades.ts:119-195 | invalid data fails with the form errors and no write; valid data is created by the ownership-and-insert step |
| LibTradeActions.UpdateTrade | lib/db/actions/trades.ts:198-345 | no session and invalid data fail with no write; parsed data goes on to the validate-and-update step; success changes only the editable columns of the one trade |
| LibTradeActions.UpdateWithData | lib/db/actions/trades.ts:255-344 | invalid data fails with the form errors and no write; valid data carries an id and is applied to the trade it names |
| LibTradeActions.EmptyUpdateFormFailsValidation | lib/db/actions/trades.ts:198-268 | without an empty-form check, an empty form fails validation with no write |
| ServerTradeActions.ConvertDate | server/actions/trades.ts:86-92 | an empty date stays null, a valid one becomes its ISO text, and an invalid one throws |
| ServerTradeActions.ConvertDates | server/actions/trades.ts:86-92 | the conversion throws exactly when one of the two dates is invalid |
| ServerTradeActions.SignErrors | server/actions/trades.ts:115-133 | profitLoss is flagged exactly for a win at or below zero or a loss at or above zero, with the matching message |
| ServerTradeActions.MergeErrors | server/actions/trades.ts:146-149 | the merged map has both sets of keys, and the sign check's message wins on a shared key |
| ServerTradeActions.SchemaAndSignNeverClash | server/actions/trades.ts:146-149 | zod and the sign check never flag the same key, because zod only flags profitLoss for NaN |
| ServerTradeActions.ValidateWithSign | server/actions/trades.ts:135-158 | the data passes exactly when the schema passes and the sign is right; a passing win is above zero and a passing loss below zero |
| ServerTradeActions.SignCheckIsTheOnlyDifference | server/actions/trades.ts:116-158 | this copy's validation accepts exactly what the other copy accepts minus the wrong-sign data |
| ServerTradeActions.CreateConverted | server/actions/trades.ts:135-224 | data that fails the schema or the sign check gets "Please fix errors in the form" with the merged field errors and the submitted data echoed, and no write; a wrong sign puts the sign message under profitLoss; data that passes the schema and the sign check is created by the ownership-and-insert step |
| ServerTradeActions.UpdateConverted | server/actions/trades.ts:304-398 | data that fails the schema or the sign check gets "Please fix errors in the form" with the merged field errors and the submitted data echoed, and no write; a wrong sign puts the sign message under profitLoss; data that passes the schema and the sign check is applied to the trade its id names |
| ServerTradeActions.CreateTrade | server/actions/trades.ts:55-224 | no session fails before any parsing; an invalid date throws; converted data goes on to the validate-and-create step; success inserts one trade whose sign agrees with its result |
| ServerTradeActions.UpdateTrade | server/actions/trades.ts:226-398 | no session fails before any parsing; an invalid date throws; converted data goes on to the validate-and-update step; success keeps the trade's identity and its sign agrees with its result |
| ServerTradeActions.EmptyCreateFormFailsValidation | server/actions/trades.ts:55-158 | without the empty-form check, an empty form reaches validation and fails, while the other copy replies with an empty message |
| Ordering.TextLeTotal | app/api/trades/route.ts:57-61 | any two texts compare one way or the other |
| Ordering.TextLeTrans | app/api/trades/route.ts:57-61 | the text order is transitive |
| Ordering.KeyLeTotal | app/api/trades/route.ts:57-61 | any two column values compare, NULL last |
| Ordering.KeyLeTrans | app/api/trades/route.ts:57-61 | the column order is transitive |
| Ordering.ParseSortField | app/api/trades/route.ts:59-60 | a sort field parses exactly when it names a trade column, and then names that column |
| Ordering.SortKey | app/api/trades/route.ts:59-60 | sorting by createdAt compares the creation time, and only nullable columns give NULL |
| Ordering.InOrderTotal | app/api/trades/route.ts:57-61 | any two trades can be placed in the requested order |
| Ordering.InOrderTrans | app/api/trades/route.ts:57-61 | the requested order is transitive |
| Ordering.PrependSorted | app/api/trades/route.ts:57-61 | a trade that may precede the first element of a sorted list keeps it sorted |
| Ordering.ConsSorted | app/api/trades/route.ts:57-61 | an element that may precede everything in a sorted rest keeps it sorted |
| Ordering.Insert | app/api/trades/route.ts:57-61 | inserting into a sorted list keeps it sorted and adds exactly that trade |
| Ordering.SortTrades | app/api/trades/route.ts:57-61 | the sorted listing is a permutation of the rows, ordered by the requested column and direction |
| Ordering.DescendingIsReversedAscending | app/api/trades/route.ts:58-60 | a list is sorted descending exactly when its reverse is sorted ascending |
| TradeQueries.Filter | app/api/trades/route.ts:50-56 | the kept rows are exactly the matching rows, each as often as in the table |
| TradeQueries.Count | app/api/trades/route.ts:36-47 | a count never exceeds the table's size |
| TradeQueries.FilterLengthIsCount | app/api/trades/route.ts:36-62 | the count and the rows come from the same WHERE clause, so totalCount is the number of trades returned |
| TradeQueries.ParamOr | app/api/trades/route.ts:13-14 | a missing or empty parameter takes the default |
| TradeQueries.ListTrades | app/api/trades/route.ts:36-67 | the listing holds exactly the caller's trades of the strategy on the requested side, counted and sorted |
| TradeQueries.GetTrades | app/api/trades/route.ts:8-75 | no session gives 401 before any parameter check; no strategyId gives 400; a listing comes exactly when the id is a UUID and the sort field a column, and any other case gives 500 |
| TradeQueries.NewestFirstByDefault | app/api/trades/route.ts:13-14 | without sort parameters the listing is ordered by createdAt, newest first |
| TradeQueries.LiveAndBacktestListingsAreDisjoint | app/api/trades/route.ts:12 | a live listing and a backtest listing never share a trade |
| TradeQueries.SortedPrefix | lib/db/queries/strategies.ts:45-46 | the first rows of a sorted list are a sorted sub-multiset of it |
| TradeQueries.NewestOfStrategy | lib/db/queries/strategies.ts:39-45 | the caller's trades of the strategy, all of them, newest first |
| TradeQueries.RecentTrades | lib/db/queries/strategies.ts:26-50 | no session gives []; the query fails exactly when the id is not a UUID; otherwise the smaller of `limit` (5 by default) and the number of the caller's trades of that strategy, all of them such trades, newest first; a negative limit puts no LIMIT on the query and returns all of them |
| TradeQueries.RecentTradesAreTheNewest | lib/db/queries/strategies.ts:45-46 | a matching trade left out by the limit is no newer than any trade returned |
| TradeQueries.RecentTradesSpanBothSides | lib/db/queries/strategies.ts:40-44 | with a limit that cuts nothing, the recent trades are the live and the backtest listings together |
| TradeQueries.FirstNamed | lib/db/queries/strategies.ts:15-17 | the position found is the first row from the start point that is the caller's strategy with that name |
| TradeQueries.StrategyByName | lib/db/queries/strategies.ts:5-24 | no session gives null; otherwise the first strategy of the caller with exactly that name, with exactly its custom fields, or null when there is none |
| TradeQueries.StoreRowsHaveUniqueNames | lib/db/drizzle/schema.ts:104-107 | rows read from a well-formed store keep the unique (user, name) index |
| TradeQueries.StrategyByNameIsTheOnlyMatch | server/data/strategies/strategies.ts:17-23 | under the unique (user, name) index, any strategy of the caller with that name is the one returned, with exactly its custom fields |
| TradeFormUi.SyncDates | components/trades/trade-form.tsx:134-144 | order_placed clears the opening date; any other status keeps a set opening date or sets it to now; any status but closed clears the closing date |
| TradeFormUi.SyncKeepsFittingDates | components/trades/trade-form.tsx:134-144 | dates that already fit the status are left alone |
| TradeFormUi.SyncDatesSettles | components/trades/trade-form.tsx:134-144 | the effect's second run, at any later time, changes nothing |
| TradeFormUi.Abs | components/trades/trade-form.tsx:421-423 | the absolute value is non-negative and equal to the value or its negation |
| TradeFormUi.CorrectSign | components/trades/trade-form.tsx:415-434 | a corrected win is at least zero, a loss at most zero, only the sign can change, NaN and other results are left alone |
| TradeFormUi.CorrectSignIdempotent | components/trades/trade-form.tsx:415-434 | correcting twice equals correcting once |
| TradeFormUi.CorrectedSignFailsOnlyAtZero | components/trades/trade-form.tsx:415-434 | after the correction, the server copy's sign check rejects a win or loss exactly when it is zero |
| TradeFormUi.SetCustomValue | components/trades/trade-form.tsx:155-160 | a change sets that key and leaves all other keys as they were |
| TradeFormUi.LaterChangeWins | components/trades/trade-form.tsx:155-160 | of two changes to one field only the later one is kept |
| TradeFormUi.ChangesToDifferentFieldsCommute | components/trades/trade-form.tsx:155-160 | changes to two different fields commute |
| TradeFormUi.FieldElementId | components/trades/trade-form.tsx:465-467 | the element id starts with "custom-field-" and contains no white space |
| TradeFormUi.AfterLastHyphenOfTail | components/trades/trade-form.tsx:467 | a hyphen-free tail behind a hyphen is exactly what follows the last hyphen |
| TradeFormUi.FieldElementIdsDiffer | components/trades/trade-form.tsx:465-467 | fields at different positions never share an element id, whatever their names |
| TradeFormUi.Submission | components/trades/trade-form.tsx:163-186 | the action reads the set dates as calendar days, the custom values JSON, isBacktest and the strategy id, and the trade id only when editing |
| Forms.EntryAfterAll | components/trades/trade-form.tsx:163-186 | after a run of optional appends, reading the entries as an object gives the last value appended under a key, or the earlier value when none was |
| Forms.GetAfterAll | components/trades/trade-form.tsx:163-186 | after the same appends, `get` keeps an earlier value and otherwise gives the first value appended under the key |
| TradeFormUi.SubmissionReadsBack | components/trades/trade-form.tsx:163-186 | the submitted form reads back, through the action's form reading, as the strategy, the live/backtest side, the edited trade's id and the opening day |
| TradesTable.SortParams | components/trades/trades-table.tsx:115-117 | the first sorted column, or createdAt; descending when nothing is sorted or that column is descending, else ascending |
| TradesTable.RequestParams | components/trades/trades-table.tsx:119-121 | the request carries the strategy id, the live/backtest side and the sort field and direction the table chose |
| TradesTable.TableGetsItsOrdering | components/trades/trades-table.tsx:114-127 | for a sortable column the endpoint answers with the strategy's trades on the table's side, counted and in the table's order |
| TradesTable.InitialRequestIsTheDefault | components/trades/trades-table.tsx:71-80 | the table starts sorted by createdAt descending, and its first request gets the same listing as a request with no sort parameters: newest first |
| TradesTable.PageCount | components/trades/trades-table.tsx:146 | a missing page count reads as 0 |
| TradesTable.ViewOf | components/trades/trades-table.tsx:143-149 | the table shows the listing's trades, none after a failed request, and 0 pages because the listing carries no page count |
| TradesTable.StatusLabel | components/trades/trades-table.tsx:190-194 | "Order Placed" exactly for order_placed, "Open" exactly for open, "Closed" for anything else |
| TradesTable.StatusLabelsDistinct | components/trades/trades-table.tsx:190-194 | different statuses get different labels |
| TradesTable.ReplaceFirst | components/trades/trades-table.tsx:228 | the replacement keeps the length and leaves text without the character unchanged |
| TradesTable.ReplaceFirstPastPrefix | components/trades/trades-table.tsx:228 | text before the first occurrence is kept |
| TradesTable.ReplaceFirstReplacesTheFirst | components/trades/trades-table.tsx:228 | only the first occurrence changes, later ones are kept |
| TradesTable.ResultLabel | components/trades/trades-table.tsx:226-229 | "N/A" without a result; otherwise the same length, with the first letter upper-cased |
| TradesTable.ResultLabelOfWord | components/trades/trades-table.tsx:226-229 | a word without "_" only gets a capital first letter |
| TradesTable.ResultLabelOfTwoWords | components/trades/trades-table.tsx:226-229 | in two words joined by "_", the "_" becomes a space |
| TradesTable.WinLabel | components/trades/trades-table.tsx:226-229 | win shows "Win" |
| TradesTable.LossLabel | components/trades/trades-table.tsx:226-229 | loss shows "Loss" |
| TradesTable.BreakEvenLabel | components/trades/trades-table.tsx:226-229 | break_even shows "Break even" |
| TradesTable.CustomColumns | components/trades/trades-table.tsx:252-256 | the columns are the first trade's custom-value keys, and none when there are no trades |
| TradesTable.CustomColumnIdsDistinct | components/trades/trades-table.tsx:258-259 | different custom fields get different column ids |
| TradesTable.CustomColumnSortFails | components/trades/trades-table.tsx:258-302 | sorting by a custom-field column asks the endpoint for a column that does not exist, and the listing fails with a 500 |
| TradesTable.LongNamesNameNoColumn | app/api/trades/route.ts:59-60 | text longer than every column name names no column |

## Left out

- Case mapping is ASCII-only in `toLowerCase` and `toUpperCase`: every other character maps to itself.
- `profit_loss` is declared `integer` in the schema, but the actions write decimal strings. The model stores the parsed `real` and does not model the database's rejection or rounding.
- `parseFloat`, `new Date(text)`, `toISOString` and `JSON.parse` are parameters. Their own behaviour is not modelled: the parser's prefix reading, `Infinity`, time zones, and JSON that parses to something other than the expected shape.
- TradeFormUi.CorrectSign works on the number `parseFloat` reads, not on the text in the input. The round trip through `toString` and back is not modelled.
- Profile.FirstChars: a string is a sequence of Unicode scalar values, while the source's `n[0]` reads one UTF-16 code unit. A piece that starts with a character outside the Basic Multilingual Plane contributes half of a surrogate pair in the source and the whole character in the model, so Profile.Initials differs for such names too.
- UUID syntax is the 8-4-4-4-12 hexadecimal shape. The database's other accepted spellings (braces, no hyphens) are not modelled.
- Ids compare letter for letter. A uuid column compares values, so an upper-case spelling of a key finds its row in the database but not in the model.
- TradeQueries.RecentTrades: a negative `limit` is taken to add no LIMIT clause, as the query builder writes one only for a limit of zero or more; the builder is not part of this model. A fractional limit is not modelled.
- LibStrategyActions.UpdateStrategy: the thrown validation error carries the per-field messages as a flat map. The source's message is "Validation failed: " followed by the JSON text of the schema's nested error tree, which is not modelled.
- Ordering: ties between equal sort keys keep table order. The database does not promise any order for ties.
- Ordering: text compares by code point, not by the database's collation.
- TradeQueries.GetTrades: sorting by a column outside the trade columns gives 500. The source passes such a name to the query builder, with a result the model does not predict. `customValues` is not sortable in the model.
- `count(*)` comes back from the driver as text. The model counts with a natural number.
- `pageIndex` and `pageSize` are sent by the table but ignored by the endpoint. The model sends them and the endpoint ignores them; no pagination is modelled.
- React Query's caching (showing earlier data while a new request fails) is not modelled.
- Query-string encoding of the parameters is not modelled: ids are UUIDs and the other values are plain words.
- `Object.keys` order: the custom columns are a set.
- TradeQueries.StrategyByName does not tell JavaScript's `null` from `undefined`: both are `None`.
- The trade form's initial date state, the edit-mode refresh of custom values, rendering, toasts, `revalidatePath` and logging are left out: they carry no logic beyond what is modelled.
- The session lookup is an `Option` parameter. Database connections, drizzle's query builders and transactions are replaced by immutable maps and all-or-nothing store functions.
- The metrics endpoint, the fetch hooks and the seed scripts are not part of this model.

## Findings

| source | as written | input that shows it | evidently intended | confidence | as-written member | corrected member |
|---|---|---|---|---|---|---|
| lib/constants/assets.ts:182-184 | the lower-cased name indexes a plain object literal, and `\|\| []` only replaces falsy results | `getAssetsByInstrument("Constructor")` reaches `Object.prototype.constructor`, a function, not a list of options | an unknown instrument yields [] | high (not executed) | Assets.AsWrittenLeaksPrototype | Assets.AssetsByName |
