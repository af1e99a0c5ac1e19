# Investment price tracker: ledger, pricing rules and history rules in Dafny

The tracker is a small Express server (`server.js`) and the browser script that drives its page (`app.js`). This project models the core of both and proves properties of the model.

**The server side.** Every saved snapshot of an investment is one line in an append-only CSV file. The line holds five fields: name, type, amount, value and timestamp.
- `writeData` appends one line.
- `readData` trims the file, splits it into lines, skips the header, drops blank lines and splits every other line at commas.
- `initializeDataFile` writes the header only when the file is missing.
- Two routes derive views from the records: the records of one investment, and the list of distinct investment names.
- The crypto route maps a ticker to a CoinGecko coin id. It refuses unknown tickers before making any request.
- The metals route tries Yahoo Finance, then Alpha Vantage, then Commodities-API. It falls back to a per-metal constant.

**The client side.**
- `formatTimeRemaining` renders a number of seconds as text.
- `autoUpdateOldInvestments` finds each investment's latest record. It refreshes those that are a day old or older and not CUSTOM.
- `loadData` reloads at most once after such refreshes.
- `updateTable` sorts the records newest first, in place. It gives each investment a single action (an Update button, or a dash for CUSTOM) on that investment's first row.
- `fetchPrice` and `handleSubmit` choose the price endpoint and refuse to post a record without a value.

Modules, one per file:
- `Wrappers`: `Option`.
- `Text`: JavaScript `split`, `join`, `trim` and integer rendering.
- `Ledger`: the CSV format and the data file. The file is a class whose `content` the operations change in place.
- `Collections`: order-preserving de-duplication.
- `Queries`: the two derived views.
- `Pricing`: the crypto and metals rules.
- `Countdown`: `formatTimeRemaining`, plus a reader it is proved against. The reader rejects numbers with leading zeros, a unit whose plural does not match its count, and a second quantity of one of the first one's units or more. It still accepts texts the formatter never prints, such as `125 seconds` or `1 hour 0 minutes`. A reading together with the units named by `Units` fixes each count as well as the total.
- `History`: latest-per-name grouping and the auto-update loop.
- `Table`: the sort and the rows.
- `Loading`: `loadData` and the manual update.
- `Form`: the price form, with the shared `currentPrice` as a class field.

How some things are represented:
- Timestamps on the client are integer milliseconds.
- Numeric CSV fields are the text written and read back.
- A `parseFloat` result is an `Option<real>`, with `None` for NaN.
- Every network reply and clock reading is a parameter.

## Model

| member | source | states |
|---|---|---|
| Ledger.FormatLine | server.js:36-38 | the appended text is the template literal: name, type, amount, value and timestamp separated by commas, then a newline |
| Ledger.ParseRow | server.js:30-31 | destructuring the split line: the name is always present, and the type, amount, value and timestamp are each `undefined` exactly when the line has fewer than 2, 3, 4 and 5 comma-separated pieces |
| Ledger.FormatLineFields | server.js:36-38 | the appended text ends in a newline, and splitting the rest at commas gives exactly the five fields in the order name, type, amount, value, timestamp (when no field holds a comma) |
| Ledger.ParseLinesAppend | server.js:29-32 | the records parsed from two runs of lines are those of the first followed by those of the second, so file order is kept |
| Ledger.BlankLinesDropped | server.js:28-32 | a line that is blank after trimming yields no record; any other line yields exactly one, in its own place |
| Ledger.ReadLedger | server.js:23-38 | round trip: a file holding the header and the lines of clean snapshots reads back as exactly those records, in order |
| Ledger.ReadHeaderOnly | server.js:27-28 | the first line is always skipped, so a header-only file yields no records |
| Ledger.ReadAfterAppend | server.js:23-38 | appending one clean line keeps every record already read and adds the new one, unchanged, as the last record |
| Ledger.ReadHeaderlessFile | server.js:27-38 | a line appended to a missing file creates it without a header, and the file then reads as empty |
| Ledger.DataFile.InitializeDataFile | server.js:15-20 | writes the header only when the file is missing; on an existing file the contents do not change, so a second call changes nothing |
| Ledger.DataFile.WriteData | server.js:36-39 | appends exactly one formatted line and leaves the existing text untouched; a clean snapshot keeps the file a well-formed ledger with that snapshot added |
| Ledger.DataFile.Save | server.js:176-182 | stamps the request with the current instant, validates nothing, and appends one line, after which, on a well-formed ledger and for a snapshot whose fields hold no comma or newline and whose timestamp does not end in whitespace, reading returns the old records plus the new one |
| Ledger.DataFile.ReadData | server.js:23-33 | no records when the file does not exist; on a well-formed ledger, exactly the saved snapshots in order |
| Text.SplitJoin | server.js:30 | splitting at a separator undoes joining with it when no piece contains it |
| Queries.FilterByName | server.js:204 | the result is no longer than the records and holds only records of the requested name |
| Queries.Investments | server.js:216 | the list holds each name that occurs in the records, and holds it once |
| Queries.FilterByNameExact | server.js:201-205 | the per-name query returns exactly the records with that name, each as many times as it occurs in the file |
| Queries.FilterByNameAppend | server.js:204 | filtering distributes over concatenation, so matching records keep their file order |
| Queries.FilterByNameIdempotent | server.js:204 | filtering the result again by the same name changes nothing |
| Queries.FilterAfterSave | server.js:176-182 | saving a snapshot adds it, last, to its own investment's history and leaves every other investment's history unchanged |
| Queries.InvestmentsSpec | server.js:213-217 | the investments list contains each name that occurs in the data, exactly once, in order of first appearance |
| Queries.InvestmentsAfterSave | server.js:216 | saving adds the snapshot's name to the end of the list when it is new, and otherwise leaves the list unchanged |
| Collections.Distinct | server.js:216 | set-then-spread keeps every element of the input and only those, without repetition |
| Collections.DistinctSpec | server.js:216 | set-then-spread keeps exactly the input's elements, without repetition, ordered by first occurrence |
| Collections.DistinctOfDistinct | server.js:216 | a sequence without repetitions passes through unchanged |
| Collections.DistinctIdempotent | server.js:216 | de-duplicating twice gives the same as once |
| Pricing.CoinId | server.js:148-155 | a coin id exists exactly for BTC, ETH, LTC, SOL and XRP |
| Pricing.CryptoPrice | server.js:144-173 | an unsupported symbol gets 400 "Unsupported cryptocurrency" with no request made; otherwise a price is answered exactly when CoinGecko's `usd` value is truthy, and a 500 is answered in every other case |
| Pricing.UpperAsciiIdempotent | server.js:146 | upper-casing twice gives the same as once |
| Pricing.CryptoPriceIgnoresCase | server.js:146 | the route's answer does not depend on the case of the symbol |
| Pricing.UnsupportedSymbolNotFetched | server.js:155-159 | for an unsupported symbol, no reply can lead to a request; the answer is always the 400 |
| Pricing.MetalRequests | server.js:46-122 | Yahoo Finance is always asked first; Alpha Vantage is asked only when Yahoo gave nothing and its key is set; Commodities-API only when neither gave a price and its key is set; providers come in that fixed order, each under the GOLD or silver symbol of its own API |
| Pricing.MetalPrice | server.js:42-130 | the metal is upper-cased; the first provider that answers supplies the price and is the last one asked; the fallback constant is used exactly when every provider asked failed |
| Pricing.FallbackPrice | server.js:126-130 | the per-metal constant, 0 when the metal has none, is never negative and is positive exactly for GOLD and SILVER |
| Pricing.SilverSymbolForOtherMetals | server.js:49-104 | each provider has different gold and silver symbols, and every metal other than GOLD is asked for under the silver one |
| Pricing.MetalFallback | server.js:124-130 | with every provider failing, the price is 2650 for GOLD, 30.5 for SILVER and 0 for anything else |
| Pricing.MetalPricePositive | server.js:124-130 | GOLD and SILVER always get a positive price when every provider answering gives one |
| Countdown.QuantityReads | app.js:151 | a count and unit read back as that count, with the unit plural exactly when the count is not 1 |
| Countdown.FormatTimeRemaining | app.js:149-166 | for a non-negative time, the text reads back as the whole time below an hour and as the time truncated to whole minutes from an hour on; the units shown are seconds; minutes and, when non-zero, seconds; or hours and, when non-zero, minutes. The reader rejects a second count of a full first unit or more, so the counts shown are the quotient and remainder (no `1 minute 65 seconds` for 125 seconds) |
| Countdown.TwoQuantitiesRead | app.js:158 | two quantities joined by a space read back as the sum of their seconds when the second is smaller than one of the first one's units, and are rejected otherwise |
| History.Latest | app.js:316-326 | the `investmentMap` grouping: the first entry of a name is kept until a strictly later one replaces it, and a name inherited from `Object.prototype` is never stored (its contract is stated by LatestKeys and LatestSpec) |
| History.GroupLatest | app.js:316-326 | the `forEach` loop builds exactly the grouping `Latest`, and lists each of its keys once |
| History.LatestKeys | app.js:316-326 | the grouping has one key for each distinct investment name in the data, except the names a plain object inherits from `Object.prototype` (such as "constructor" or "toString") |
| History.LatestSpec | app.js:316-326 | each kept entry has a maximal timestamp for its name; because the comparison is strict, ties keep the earliest entry |
| History.AutoUpdateOldInvestments | app.js:312-350 | an investment is refreshed exactly when it is in the grouping and its latest entry is at least 86 400 000 ms old and not CUSTOM, at most once; an investment with an inherited name is never refreshed; the result is true exactly when some refresh succeeded; failures do not stop the loop, and empty data refreshes nothing |
| Table.SortDescending | app.js:420 | the sorted records have the input's length and are a permutation of it |
| Table.SortDescendingSpec | app.js:420 | the sorted records are newest first, a permutation of the input, and records with equal timestamps keep their input order |
| Table.ActionAt | app.js:437-455 | a row carries an action exactly when no earlier row has its name; the action is a dash only for CUSTOM and an Update button only for other types |
| Table.Rendered | app.js:407-457 | no records give the single "No data available" row; otherwise there is one record row per record |
| Table.TableRows | app.js:423-456 | row i shows record i, with the action the first-row rule assigns it |
| Table.UpdateTable | app.js:407-457 | the caller's array ends up sorted newest first, and the rows are the rendered table (a single "No data available" row for no records) |
| Table.TableShape | app.js:407-421 | a non-empty table has one row per record, newest first, holding exactly the records |
| Table.OneActionPerInvestment | app.js:423-456 | every investment shown gets an action on exactly one of its rows |
| Table.ActionOnNewest | app.js:420-456 | the action is on a newest record of its investment, and is a dash exactly for CUSTOM |
| Table.FirstRowIsNewest | app.js:420-436 | in a table sorted newest first, an investment's first row carries its largest timestamp |
| Loading.LoadData | app.js:282-309 | loads at most twice and runs the automatic refresh at most once; a failed fetch or JSON parse is caught, renders nothing and refreshes nothing; with the skip flag there is one load and no refresh; otherwise the reload happens exactly when some stale investment refreshed successfully; the table shows the data of the last load when that load succeeded |
| Loading.UpdateInvestment | app.js:372-405 | a request that throws, or a success reply without `totalValue`, shows "Error updating investment: " and the message and throws on; a success reply with `totalValue` reloads with the skip flag, so it triggers no automatic refresh; a 429 with a truthy wait starts the countdown prompt for "just created" or "recently updated"; any other reply shows the server's error or "Update failed" |
| Loading.Prompt | app.js:183-184 | the countdown text is the prompt, a space, and a time that reads back as the seconds left (to the minute from an hour on), in the units `formatTimeRemaining` shows for that time, so the total and the units together fix the text (`2 minutes 5 seconds`, not `125 seconds`) |
| Loading.ErrorText | app.js:398 | the server's error text unless it is absent or empty, otherwise the fallback |
| Form.PlanPriceFetch | app.js:102-124 | a missing type or a missing or zero amount is refused; CUSTOM fetches nothing; GOLD and SILVER use `/api/metals/`, every other type `/api/crypto/` |
| Form.Submit | app.js:208-228 | a record is sent exactly when CUSTOM has a truthy custom value or another type has a truthy fetched price; it carries that value; otherwise the matching message is shown and nothing is sent |
| Form.PriceForm.ChangeType | app.js:79-100 | changing the type forgets the fetched price |
| Form.PriceForm.FetchPrice | app.js:102-146 | follows the fetch plan; a truthy price sets the current price to price times amount; otherwise the current price is unchanged |
| Form.PriceForm.SubmitWith | app.js:219-228 | a non-CUSTOM submission is accepted exactly when the current price is truthy, and sends it |
| Form.PriceForm.Saved | app.js:245-249 | a successful save clears the fetched price |
| Form.FetchThenSubmit | app.js:127-228 | after a truthy price is fetched for a non-CUSTOM type, submitting sends price times amount; without a fetched price nothing is sent |
| Form.CryptoEndpointRoute | app.js:118-123 | a crypto request from the form reaches CoinGecko exactly when its type is one of the five supported tickers |
| Form.MetalEndpointPriced | app.js:118-121 | a metals request from the form gets a positive price whenever every provider that answers gives a positive one |

## Left out

- Network calls to Yahoo Finance, Alpha Vantage, Commodities-API and CoinGecko. Each provider is an input: the price it yields, or `None`. Truthiness, `parseFloat` and `1 / rate` are folded into that input.
- The metals route's outer `catch` (server.js:132-140). It answers the same fallback price; an exception outside the providers cannot arise in the model.
- Floating-point arithmetic, `parseFloat`, `toFixed` and `toLocaleString`. Prices are `real`, and numeric CSV fields are opaque text.
- Date parsing and `toISOString`. The server's timestamp is a string parameter; the client's timestamps are integer milliseconds. The conversion between the two is not modelled.
- File-system errors and atomicity, and the 500 replies of the data routes. On the client such a reply parses to an object, not an array; `loadData` then fails inside `autoUpdateOldInvestments` or `updateTable` and catches the error. `Loading.LoadData` takes every parsed reply to be a record list.
- Table.UpdateTable: every record is taken to have a numeric `amount` and `value`. A record whose CSV field was not a number reaches the client with `null` there; `toFixed` or `toLocaleString` then throws at app.js:429-430, leaving the table cut off after the cells already inserted, and `loadData` skips `updateChart`. The model renders every record in full.
- Loading.UpdateInvestment: the success message's number formatting (`toLocaleString`) is not modelled; only that the reload happens.
- The DOM, Chart.js, the trend line, the modal, and the `setInterval` countdown (app.js:170-206). Only the first countdown text is modelled.
- The order of `Object.entries` (integer-like keys first). `AutoUpdateOldInvestments` states which investments are refreshed, not in what order.
- The `/api/update` handler, its rate limiter, and authentication. These are not part of this model; the client only reads their replies, which are parameters.
- `checkAuth`, `loadInvestments` and the selector. The records `loadData` fetches for the selected investment are a parameter.
- Pricing.UpperAscii: only ASCII letters are upper-cased; Unicode case mapping is not modelled.
- Countdown.FormatTimeRemaining: the read-back is proved for whole non-negative seconds only. Fractional or negative seconds, and counts from 1e21 up (which a template literal prints in exponent notation, unlike `Text.IntToString`), are not modelled.
- Text.IsWhitespace: the whitespace set is written out by hand, not taken from the Unicode tables.

## Notes on behaviour

These are behaviours of the code as written. The model keeps them.

- A file deleted after start-up is recreated by `appendFileSync` without a header. The first record saved then becomes the header and is never returned (`Ledger.ReadHeaderlessFile`).
- A record whose fields hold a comma or newline does not read back as saved. `/api/save` validates nothing.
- A timestamp ending in whitespace loses that whitespace only while its record is the last line of the file, because `content.trim()` strips the end of the whole file. After the next append the same line reads back in full, so an append changes how the record before it reads.
- `handleSubmit` posts the amount as parsed, even when it is NaN. A price fetched before the amount was changed is still the value sent (`Form.Submit` takes `currentPrice` as it is).
- `investmentMap` in `autoUpdateOldInvestments` is a plain object. A name that object inherits (such as "constructor") finds a truthy inherited member with no `timestamp`. The strict comparison against that invalid date is false, so the name is never stored and that investment is never refreshed (`History.LatestKeys`). `coinMap` and `fallbackPrices` are looked up with upper-cased keys, which no inherited name matches.
- The metals route asks for the silver symbols for any metal other than GOLD. It then falls back to 0 for anything other than GOLD and SILVER.
