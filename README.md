# Hotspot monitor core, modelled in Dafny

This project models the three stateful parts of a small trend and price
monitor written in Python:

- **The price-alert check** (`app/services/alerter.py`). A module-level cache
  maps `symbol_condition` to the last time that alert fired. For each rule,
  `check_price_alerts` does these steps in order:
  - skips incomplete rules;
  - skips rules that fired less than 24 hours ago;
  - fetches a quote;
  - tests the strict `above` / `below` condition;
  - pushes the alert;
  - only after the push returns, records the time in the cache.

  An exception raised inside a rule's `try` (fetching the quote, comparing,
  pushing) does not stop the other rules.
- **The TradingView analysis cache** (`get_tv_analysis` in
  `app/services/tradingview_fetcher.py`). A module-level map goes from
  `symbol_screener_exchange_interval` to the last analysis fetched and the
  clock read before that fetch. An entry younger than 60 seconds is served
  without fetching. Otherwise the analysis is fetched and stored. A failed
  fetch returns `None` and leaves the cache alone.
- **The X-trends insert batch** (`scrape_x_trends` in
  `app/services/scraper.py`, over the `Item` table of `app/models/item.py`).
  - Every title read from the page is stripped and skipped when blank.
  - The rest is identified by `https://x.com/search?q=` + `quote(title)`.
  - It is added to the session unless a *committed* row already has that
    url. The session is created with `autoflush=False`, so pending objects
    are invisible to the lookup.
  - The batch is committed once at the end, or rolled back as a whole.

Every outside call is an input of the model. This covers the clocks
(`datetime.now()`, `time.time()` and the database's `now()`), the quote
source, the push, the TradingView fetch, and the DOM reads. Clocks are
integer microseconds.

Files:

| file | content |
|---|---|
| `common.dfy` | `Option` and the sequence facts the other modules share |
| `unicode.dfy` | Python text as code points, `str.isspace`, `str.strip`, UTF-8 encoding and its inverse |
| `percent.dfy` | `urllib.parse.quote` with `safe="/"` (sections 2.1 and 2.3 of RFC 3986) and its inverse |
| `item.dfy` | the `items` row and what an INSERT writes |
| `store.dfy` | the SQLAlchemy session: committed rows keyed by the UNIQUE url, pending objects, all-or-nothing commit |
| `scraper.dfy` | the per-title loop, the single commit and the rollback |
| `alerter.dfy` | the alert cache class, the per-rule check and the rule loop |
| `tradingview.dfy` | the analysis cache class and `get_tv_analysis` |

The stateful parts are classes:
- `Alerter.AlertCache` holds `_alert_cache`.
- `TradingView.AnalysisCache` holds `_cache`.
- `Store.Session` holds the database session.

Their methods are proved against pure functions of the old state:
`Alerter.Evaluate` / `Alerter.Sweep`, `TradingView.Lookup`, and
`Scraper.Additions` / `Store.InsertAll`. The lemmas state the source's
promises about those functions.

`str.strip` is defined for any class of code points and used with the
whitespace of `str.isspace`. The stripping lemmas take that class as a
parameter. They hold for whitespace because they hold for every class.

## Model

| member | source | states |
|---|---|---|
| Unicode.IsSpace | app/services/scraper.py:56 | the whitespace `str.strip()` removes: the code points for which `str.isspace` holds (tab to carriage return, the information separators 0x1C-0x1F, space, 0x85, 0xA0, 0x1680, 0x2000-0x200A, the line and paragraph separators, 0x202F, 0x205F, 0x3000); its contract states that ASCII space and tab to carriage return are whitespace, and no ASCII letter or digit is |
| Unicode.Strip | app/services/scraper.py:56 | `title.strip()`: the text without whitespace at either end, defined through `StripBy` with `IsSpace`; its contract states that the result is no longer than the text and starts and ends with non-whitespace, and the lemmas below state what was cut |
| Unicode.Leading | app/services/scraper.py:56 | the index where the run of whitespace starting at a given index ends: every code point in between is whitespace, and the one at the result, if any, is not |
| Unicode.Trailing | app/services/scraper.py:56 | the index where the run of whitespace ending at a given index starts, never below a lower bound: every code point in between is whitespace, and the one before the result, if it is at or above the bound, is not |
| Unicode.LeadingExactly | app/services/scraper.py:56 | the leading whitespace run is the only whitespace prefix followed by non-whitespace or by the end |
| Unicode.TrailingExactly | app/services/scraper.py:56 | the trailing whitespace run is the only whitespace suffix, down to the bound, preceded by non-whitespace or by the bound |
| Unicode.StripShape | app/services/scraper.py:56 | the stripped title is a contiguous slice of the title with no whitespace at either end, and only whitespace was cut on either side |
| Unicode.StripSurrounded | app/services/scraper.py:56 | stripping whitespace + trimmed core + whitespace gives the core |
| Unicode.StripSplit | app/services/scraper.py:56 | every text is whitespace + its stripped form + whitespace |
| Unicode.StripIgnoresPadding | app/services/scraper.py:56-59 | adding whitespace around a title does not change its stripped form |
| Unicode.StripIdempotent | app/services/scraper.py:56-59 | stripping twice is the same as stripping once |
| Unicode.StripEmptyIffBlank | app/services/scraper.py:56 | `title.strip()` is empty exactly when the title is whitespace-only, in both directions |
| Unicode.EncodePoint | app/services/scraper.py:59 | the UTF-8 form of a non-surrogate code point is 1 to 4 bytes |
| Unicode.EncodeUtf8 | app/services/scraper.py:59 | encoding succeeds exactly when the text has no lone surrogate; otherwise `quote` raises |
| Unicode.DecodePoint | app/services/scraper.py:59 | not part of the source: the inverse partner of `EncodePoint`, used to prove that UTF-8 encoding of titles is injective; decoding one code point consumes between 1 byte and the bytes available |
| Unicode.DecodeEncodedPoint | app/services/scraper.py:59 | decoding the UTF-8 form of a code point gives the code point and its width back |
| Unicode.Utf8RoundTrip | app/services/scraper.py:59 | decoding the UTF-8 encoding of an encodable text gives the text back |
| Unicode.Utf8Injective | app/services/scraper.py:59 | distinct texts have distinct UTF-8 encodings |
| Percent.IsSafe | app/services/scraper.py:59 | the bytes `quote(..., safe="/")` copies: ASCII letters, digits, `_.-~` and `/`; its contract states that each is an ASCII url character other than `%` |
| Percent.Quote | app/services/scraper.py:59 | `quote` on the UTF-8 bytes: each byte quoted by `QuoteByte`, in order; its contract states that the output is between one and three characters per byte |
| Percent.HexDigit | app/services/scraper.py:59 | a percent-escape uses upper-case hex digits |
| Percent.QuoteByte | app/services/scraper.py:59 | an unreserved byte or `/` is copied as itself; every other byte becomes `%` followed by the two upper-case hex digits of its value |
| Percent.HexRoundTrip | app/services/scraper.py:59 | every hex digit written can be read back to its value |
| Percent.QuoteRoundTrip | app/services/scraper.py:59 | percent-decoding the output of `quote` gives back the bytes it was given |
| Percent.QuoteInjective | app/services/scraper.py:58-60 | different byte sequences are quoted differently |
| Percent.QuoteAlphabet | app/services/scraper.py:59-60 | a quoted title holds only unreserved characters, `/`, `%` and hex digits |
| Items.Insert | app/models/item.py:8-14 | the row an INSERT of a new object writes: the given id, and the object's title, url and source; a given hot score is kept (`InsertDefaults` states the defaults) |
| Items.InsertDefaults | app/models/item.py:12-14 | an INSERT without a `hot_score` stores 0.0; `created_at` is the database clock at insert; `updated_at` stays unset |
| Store.Consistent | app/models/item.py:8-10 | the table's constraints: each row is stored under its UNIQUE url, ids are positive and distinct, and the next id is SQLite's largest id plus one (1 on an empty table) |
| Store.ConsistentNextId | app/models/item.py:8 | under those constraints the next id is 1 exactly when the table is empty, and lies above every stored id |
| Store.CanInsert | app/models/item.py:8-10 | a batch can be inserted exactly when url stays UNIQUE: its contract states that then no pending url is already stored and two pending objects with one url are the same object |
| Store.InsertAll | app/services/scraper.py:77 | the table after a commit: the pending objects inserted in order, each under its url with the next id (`Items.Insert`); its contract states that no existing url disappears |
| Store.InsertAllEffect | app/models/item.py:8-10 | a commit keeps every existing row unchanged, turns each pending object into a row under its url with the next id, and adds no other rows |
| Store.InsertAllKeeps | app/models/item.py:8-10 | a commit of new urls leaves every existing row as it was |
| Store.InsertAllPlaces | app/models/item.py:8-14 | the i-th pending object becomes the row under its url, with id `nextId + i` and the column defaults |
| Store.InsertAllOnly | app/models/item.py:8-10 | a commit adds no row other than the pending objects' |
| Store.InsertAllSize | app/models/item.py:8-10 | a commit of distinct new urls grows the table by exactly the number of pending objects |
| Store.InsertAllConsistent | app/models/item.py:8-10 | a commit that keeps urls unique preserves the table's constraints: unique url, unique positive ids, and the next id one above the largest id (1 on an empty table) |
| Store.InsertAllFiled | app/models/item.py:8-10 | after such a commit, every row is filed under its own url and has an id from 1 up to below the advanced next id |
| Store.InsertAllIdsDistinct | app/models/item.py:8 | after such a commit, no two rows share an id |
| Store.InsertAllNextId | app/models/item.py:8 | after such a commit, the advanced next id is the largest id plus one, or 1 when the table is still empty |
| Store.Session.constructor | app/db/database.py:11 | `SessionLocal()` opens a session on the table as earlier runs left it (any table meeting the url and id constraints), with nothing pending |
| Store.Session.Query | app/services/scraper.py:64 | the lookup finds a row exactly when a committed row has that url, and returns that row; pending objects are invisible (`autoflush=False`) |
| Store.Session.Add | app/services/scraper.py:72 | `add` appends the object to the pending list and leaves the table alone |
| Store.Session.Commit | app/services/scraper.py:77 | a commit succeeds exactly when every pending url is new and distinct and the database reports no other fault; it then inserts all of them, and otherwise changes nothing |
| Store.Session.Rollback | app/services/scraper.py:85 | a rollback empties the pending list and leaves the table alone |
| Scraper.ReadTrend | app/services/scraper.py:54-60 | what one container yields: nothing for a failed read or a blank title; otherwise the stripped title and its url; its contract states that a trend comes only from a read title, its title is that title stripped and not empty, and its url is the stripped title's identity url |
| Scraper.Additions | app/services/scraper.py:50-75 | the objects the loop adds, in order, each trend looked up against the committed rows only; its contract states that no added url is committed yet |
| Scraper.TrendUrl | app/services/scraper.py:58-60 | the identity url exists exactly when the stripped title can be UTF-8 encoded |
| Scraper.AddFor | app/services/scraper.py:56-72 | one container adds at most one object |
| Scraper.AddTrend | app/services/scraper.py:53-73 | one loop iteration appends that container's addition to the pending list and reports whether it added one |
| Scraper.AddTrends | app/services/scraper.py:49-75 | the loop appends the additions of all containers in order, each looked up against the committed rows only, and `items_added` is their number |
| Scraper.CommitBatch | app/services/scraper.py:77-85 | the final commit inserts the whole batch and advances the next id by its size, or the rollback leaves the table and ids as they were; the pending list ends empty either way |
| Scraper.ScrapeXTrends | app/services/scraper.py:43-85 | an exception before the loop rolls back; no containers means nothing is done; otherwise `items_added` counts the adds, the commit succeeds exactly when the batch keeps urls unique and then inserts the batch with the next ids, and a failed commit leaves the table unchanged |
| Scraper.AdditionsAppend | app/services/scraper.py:50-75 | the additions of a batch are the additions of its parts, because no title sees the ones before it |
| Scraper.FailedReadIsolated | app/services/scraper.py:74-75 | a title whose read raised is skipped and the other titles are handled as if it were absent |
| Scraper.BlankTitleSkipped | app/services/scraper.py:56 | a missing, empty or whitespace-only title adds nothing |
| Scraper.SurroundingWhitespaceIgnored | app/services/scraper.py:56-60 | titles that differ only in surrounding whitespace give the same trend and url |
| Scraper.TrendIdentity | app/services/scraper.py:58-60 | two trends have the same url exactly when their stripped titles are equal |
| Scraper.AddForShape | app/services/scraper.py:56-71 | an added object comes from a container with a title: its title is that title stripped (`title=title.strip()`), its url is that stripped title's identity url (not yet committed), its source is "X 趋势" and its hot score 0 |
| Scraper.AdditionsShape | app/services/scraper.py:50-71 | every object a batch adds is such a new trend, and its title is the stripped title of one of the batch's containers |
| Scraper.NewTrendAdded | app/services/scraper.py:64-72 | every readable trend whose url is not committed is among the batch's additions |
| Scraper.RepeatedUrlBlocksCommit | app/services/scraper.py:64-85 | two additions of one batch with the same url make the commit impossible |
| Scraper.DuplicateTitlesBlockCommit | app/services/scraper.py:64-85 | two titles of one batch that strip to the same new title both pass the lookup, so the commit breaks url uniqueness and the batch is rolled back |
| Scraper.NothingNewAddsNothing | app/services/scraper.py:64-65 | a batch whose urls are all committed adds nothing |
| Scraper.RescrapeAddsNothing | app/services/scraper.py:64-65 | scraping the same titles again after a successful commit adds nothing |
| Scraper.CommittedBatchRows | app/services/scraper.py:56-77 | after a committed scrape: existing rows are untouched (no score or timestamp update); each new row's title is the stripped title of a container of this batch, and the row has that title's identity url, source "X 趋势", hot score 0, `created_at` the commit time and no `updated_at` |
| Alerter.Key | app/services/alerter.py:18 | the cache key `f"{symbol}_{condition}"`, built the same way at line 26: its contract states that it is the symbol, one `_`, then the condition |
| Alerter.IsComplete | app/services/alerter.py:55 | the guard `if not all([symbol, condition, target_price])`: a rule is checked exactly when its symbol and condition are present and non-empty and its target is present and non-zero |
| Alerter.Fresh | app/services/alerter.py:14-22 | `_is_in_cache` on a cache: the key is present and was recorded less than 24 hours before the clock; its contract states that a fresh key is present, and that an entry at most 24 hours minus a microsecond old is fresh |
| Alerter.Triggered | app/services/alerter.py:75-79 | the strict comparison: `above` fires only for a price strictly above the target, `below` only strictly below it, any other condition never; its contract states that a trigger needs a price different from the target and one of the two conditions, and that the direction matches |
| Alerter.Evaluate | app/services/alerter.py:50-94 | one loop iteration on values: skip incomplete rules, skip fresh keys, fetch the quote, compare, push, then cache; its contract states that only a firing changes the cache, and that a firing is a complete, triggered rule whose key is written with the clock read after the push and whose alert carries the clock read before it |
| Alerter.Sweep | app/services/alerter.py:50-94 | the rule loop produces exactly one outcome per rule |
| Alerter.AlertCache.constructor | app/services/alerter.py:13 | the alert cache starts empty |
| Alerter.AlertCache.IsInCache | app/services/alerter.py:14-22 | `_is_in_cache` on the cache object, defined as `Fresh` on its entries; its contract states the same two directions as `Fresh` |
| Alerter.AlertCache.AddToCache | app/services/alerter.py:24-27 | `_add_to_cache` overwrites the rule's entry with the current clock and leaves every other entry as it was |
| Alerter.AlertCache.CheckRule | app/services/alerter.py:50-94 | one loop iteration has the outcome and leaves the cache that the per-rule evaluation gives |
| Alerter.AlertCache.CheckPriceAlerts | app/services/alerter.py:45-94 | the loop checks every rule in order, each against the cache the earlier rules left |
| Alerter.CacheWindow | app/services/alerter.py:14-22 | an entry suppresses its rule for strictly less than 24 hours: still fresh one microsecond before, expired at exactly 24 hours; a missing key is never fresh |
| Alerter.IncompleteRuleSkipped | app/services/alerter.py:51-57 | a rule with a missing, empty or zero field is skipped without consulting the cache or the quote, and the cache is unchanged |
| Alerter.FreshRuleSuppressed | app/services/alerter.py:59-62 | a complete rule is suppressed exactly when its key fired less than 24 hours ago, before any quote is fetched |
| Alerter.CacheWrittenOnlyAfterPush | app/services/alerter.py:68-94 | the cache changes only when the push returned, and then only the rule's own entry, which gets the clock read after the push |
| Alerter.AlertOnlyWhenTriggered | app/services/alerter.py:72-90 | an alert is pushed only for a complete rule with a price strictly beyond the target in the rule's direction, and carries the rule, the price and the timestamp |
| Alerter.TriggeredRulePushed | app/services/alerter.py:75-91 | a complete, unsuppressed rule whose price is strictly beyond the target is always pushed, and is cached exactly when the push returns |
| Alerter.NoAlertWithoutStrictCrossing | app/services/alerter.py:75-79 | a price equal to the target, or any condition other than `above` / `below`, never fires and never touches the cache |
| Alerter.CooldownAfterFiring | app/services/alerter.py:14-22 | after a rule fires, it is suppressed exactly while less than 24 hours have passed since the cache write |
| Alerter.RetryAfterPushFailure | app/services/alerter.py:90-94 | a failed push is not cached, so the rule is not suppressed the next time it is checked at a clock no earlier than this check's |
| Alerter.KeyInjective | app/services/alerter.py:18 | rules that can fire share a cache key only when symbol and condition both agree, so an `above` and a `below` rule never suppress each other |
| Alerter.OtherKeysUnaffected | app/services/alerter.py:24-27 | checking one rule does not change the outcome of a rule with another key |
| Alerter.SweepAppend | app/services/alerter.py:50-94 | the rules after a split point are checked against the cache the earlier ones left |
| Alerter.SweepAt | app/services/alerter.py:50-94 | the outcome of the rule at position `i` is its check against the cache left by the rules before it |
| Alerter.SweepKeepsEntries | app/services/alerter.py:24-27 | the loop never removes an entry, and never lowers one below a bound that its old value and every clock the loop records meet |
| Alerter.SweepEntryOrigin | app/services/alerter.py:24-27 | every entry after the loop holds either its value from before the loop or the clock recorded by one of the loop's rules that fired |
| Alerter.AtMostOneAlertPerWindow | app/services/alerter.py:60-62 | once a rule fires, a later rule with the same symbol and condition in the same loop is suppressed while less than 24 hours have passed |
| TradingView.AnalysisCache.constructor | app/services/tradingview_fetcher.py:9 | the cache starts empty |
| TradingView.AnalysisCache.GetTvAnalysis | app/services/tradingview_fetcher.py:12-34 | the call returns, stores and fetches what the cache semantics prescribe for its key and clock |
| TradingView.CacheKey | app/services/tradingview_fetcher.py:13 | the key `f"{symbol}_{screener}_{exchange}_{interval}"`: its contract states its length (the four fields and three `_`) and that it starts with the symbol and `_` |
| TradingView.Hit | app/services/tradingview_fetcher.py:17 | the key is present and its entry is less than 60 seconds old; its contract states that a hit needs the key, and that an entry from no later than the clock and less than 60 seconds old is a hit |
| TradingView.Lookup | app/services/tradingview_fetcher.py:12-34 | one call of `get_tv_analysis` on values: serve a hit, otherwise fetch and store with the clock read before the fetch, or return `None` on a failed fetch; its contract states that no key is removed and only the called key can be added, that a fetch happens exactly on a miss, and that `None` comes only from a failed fetch, which leaves the cache as it was |
| TradingView.HitServedFromCache | app/services/tradingview_fetcher.py:17-19 | a hit returns the stored analysis without fetching and leaves the cache unchanged |
| TradingView.FetchIffMiss | app/services/tradingview_fetcher.py:17-24 | a fetch happens exactly when the key is absent or its entry is 60 seconds old or more |
| TradingView.MissStoresFetched | app/services/tradingview_fetcher.py:14-31 | a successful fetch on a miss is returned and stored with the clock read before the fetch; no other entry changes |
| TradingView.FailureKeepsCache | app/services/tradingview_fetcher.py:32-34 | a failed fetch returns `None` and leaves the cache, including a stale entry, as it was |
| TradingView.NeverEvicts | app/services/tradingview_fetcher.py:9-31 | no call removes an entry, and only the called key's entry can change |
| TradingView.RepeatWithinWindow | app/services/tradingview_fetcher.py:17-30 | a second call with the same key less than 60 seconds after a successful fetch returns the same analysis without fetching |
| TradingView.UnderscoreAt | app/services/tradingview_fetcher.py:13 | not part of the source: the helper that splits the key formatted at line 13 back into fields for the injectivity proof; the position found is the first `_` of the text, or its end |
| TradingView.CacheKeyInjective | app/services/tradingview_fetcher.py:13 | calls whose fields contain no `_` share an entry only when symbol, screener, exchange and interval all agree |
| TradingView.CacheKeyCollision | app/services/tradingview_fetcher.py:13 | with `_` inside a field, two different calls share one cache entry |

## Left out

- Login, navigation, selector waits and screenshots (app/services/scraper.py:18-41, 44-46, 53-54 and 82-84) are not modelled. The page is an input: either an exception before the loop, or the list of title reads. A screenshot that raises inside the outer handler, and so skips the rollback, is not modelled.
- Exceptions from the url lookup (`db.query`) are not modelled. Only title reads and `quote` can fail inside the loop.
- The SQLite `id` assignment is modelled as a counter. SQLite gives an `INTEGER PRIMARY KEY` without AUTOINCREMENT the largest id plus one, or 1 on an empty table. `Store.Consistent` pins the counter to exactly that value, and `Store.InsertAllNextId` shows that a commit keeps it so. Deleting rows is not part of this core.
- `Store.Session.Commit`: the database's other failure reasons are one `fault` input. NULL `title`/`url` values and column types are not modelled.
- `Unicode.DecodeUtf8` is used only as a left inverse of the encoder. It does not reject overlong or surrogate encodings.
- Reading `monitor_config.yaml` (app/services/alerter.py:35-48) is not modelled. The rule list is an input, and a missing or empty list is a loop with no rounds. `symbol` and `condition` are modelled as strings and `target_price` as a number. Other YAML values are not modelled.
- A rule entry that is not a mapping (a bare `- AAPL` in the YAML) is not modelled. It raises at `alert_rule.get` (app/services/alerter.py:51), outside the per-rule `try`, and so ends the whole check without looking at the remaining rules.
- A `target_price` that is not a number (such as the string `"100"`) is not modelled. It raises `TypeError` at the comparison (app/services/alerter.py:76-78), which the per-rule `except` catches and logs.
- Prices are exact reals. Float rounding, NaN and infinite quotes are not modelled.
- The alert timestamp is kept as the clock value. Its `strftime` text form is not modelled.
- `get_stock_data` and `push_price_alert` are not part of this model. Their outcomes are inputs (`Alerter.Quote`, `Alerter.Push`), and so is the TradingView fetch (`TradingView.Fetch`).
- Logging and printing are not modelled. Nor are concurrent calls from the scheduler's threads: the caches are modelled as used by one thread at a time.
- `TradingView.AnalysisCache.GetTvAnalysis` takes the interval as a string. The `Interval` enum default is the constant `DefaultInterval` ("1d").
- `get_stock_data_as_df` and `get_index_data` are not modelled. They are outside the cache logic.
- `Alerter.AtMostOneAlertPerWindow`: it assumes the clock never runs backwards during one loop, and that the later rule is checked less than 24 hours after the earlier one's cache write. Without these, a rule can fire again in the same loop.
- `Alerter.RetryAfterPushFailure`: proved only for a next check whose clock is no earlier than this one's. `datetime.now()` is naive local time, which can step back at a daylight-saving change; an older entry could then be fresh again at that check.
- `Alerter.KeyInjective`: proved only among the conditions `above` and `below`. Other conditions never fire, so they never write the cache.
- `TradingView.CacheKeyInjective`: proved only for fields without `_`. `TradingView.CacheKeyCollision` shows that keys do collide otherwise.
