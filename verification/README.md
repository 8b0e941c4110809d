# Verified model of the order benchmark

Eight services (Go, Node, Rust, Bun, Phoenix, Python, ASP.NET, Spring) implement one HTTP contract over one
PostgreSQL schema. This project models the part of them that carries the risk, `POST /orders`, and three
smaller pieces of hand-written logic, and proves what they keep.

**The order protocol.** A request takes a pooled connection, locks its distinct product rows one at a time in
ascending id order, checks stock and computes the total on the locked values, inserts the order under a unique
idempotency key (a conflict means: replay the stored order), writes an item row, a ledger row and a stock
decrement for each line, and commits.

- `Schema` holds the four tables and, as a predicate on committed contents, every CHECK, UNIQUE and REFERENCES
  clause on the columns that requests read or write; seeded rows are arbitrary apart from those clauses, so totals and ledger equations are relative to
  the initial database.
- `Orders` is the atomic specification: unknown product (lowest id first), then the first line short of stock,
  then a total the column refuses (abort), then a used key (replay), then any other refused constraint (abort),
  then creation. PostgreSQL tests the CHECK on the total before it looks for the conflicting key. `OrderLaws`
  proves its laws. `Promises` says the same on the tables and the request alone, field by field and with the
  numbers, without any of its functions, and proves that the specification's answers and effects are exactly those.
- `Handler` is Go's handler as an imperative class, statement by statement on one connection with nobody else
  running, proved to answer and to change the tables exactly as the specification says. `ProductIds` and
  `Pricing` hold its loops and their counterparts in Rust, Python and Phoenix; `Body` is Python's validator.
- `Protocol` is the concurrent machine: any number of requests, their statements interleaved in any order, a
  finite pool, exclusive row locks, and an insert that waits for an unfinished holder of its key. Every step may
  fail instead (a lock timeout, a lost connection), and a commit's acknowledgement may be lost. Four replay
  policies cover the eight services; two ways of narrowing the total cover their integer types.
- `Invariant` and `Preservation` prove the inductive invariant; `Histories` the refinement of the specification;
  `Guarantees` idempotency, conservation, whole orders and stable locks over whole runs; `Liveness` and `Wedge`
  progress, bounded runs and the one way to get stuck; `Resources` who holds which connection and lock, how long,
  and what a request can be waiting for. `Sums` adds naturals over a map.

**The dashboard query** (`Dashboard`) with its **escaping** (`HtmlEscape`); the ASP.NET **connection-URL
splitter** (`ConnectionUrl`, on `PercentCoding`, the percent-encoding of section 2.1 of RFC 3986 over UTF-8);
and the Phoenix **histogram** (`Histogram`).

**Where the code does not do what its own text says.** These are stated as exact conditions.

- The contract (`contracts/openapi.yaml:74-76`) promises the original 201 for a repeated key. The code tests
  stock first, and the database tests the new total before the key, so a repeat is replayed if and only if its
  body still passes the product and stock checks and has a total that could be stored (`ReplayedExactly`); a
  repeat with a negative quantity fails (`NegativeRepeatIsNotReplayed`), while under the contract's bounds the total
  never stands in the way (`ServicesAgreeUnderContract`). For an immediate retry only what the first order left
  decides (`ImmediateRetry`). `RetryAfterSellingOut` is a concrete 409. `apps/spring/README.md:109` admits the
  order of the stock check.
- The per-line stock check does not keep stock safe by itself: it accepts two lines that together overdraw a
  product (`PerLineCheckIsTooWeak`), and only the CHECK on stock stops them. It suffices on every allowed stock if
  and only if, for each product, one of its lines asks for as much as all of them (`PerLineCheckSufficesExactly`);
  with positive quantities, if and only if the lines name distinct products (`DistinctExactlySuffices`).
- Go's and Spring's totals are 32-bit. Under the contract's bounds they are exact up to a price of 107374 cents
  and no further (`ExactUnderContract`, `OneCentMoreOverflows`); the schema allows higher prices, and a wrapped
  total can be stored (`WrappedTotalCanBeCommitted`). A stored total equals what its rows are worth if and only
  if that amount fits (`CommittedOrderIsWhole`).
- Python's replay takes a second connection while holding the first, and can wedge a pool of any size
  (`EveryPoolCanWedge`); this is the only way any of the services gets stuck (`StuckExactlyWhenWedged`).

## Model

| member | source | states |
|---|---|---|
| Int32.Wrap | apps/go/handlers.go:202-216 | 32-bit truncation stays in range, keeps a value exactly when it fits, and differs from it by a multiple of 2^32 |
| Int32.LowBits | apps/spring/src/main/java/com/bench/service/OrderService.java:78 | a value fits exactly from -2147483648 to 2147483647, and a non-negative kept value is the amount modulo 2^32 |
| Schema.ColumnBounds | infra/postgres/init/01-schema.sql:34-88 | the bounds of prices, stock, totals, quantities and deltas with their numbers |
| ProductIds.SortInt32 | apps/go/handlers.go:473-479 | the in-place insertion sort leaves a sorted permutation of the slice |
| ProductIds.GoLockOrder | apps/go/handlers.go:167-176 | skipping seen ids and sorting in place yields the unique ascending list of exactly the requested ids |
| ProductIds.RustLockOrder | apps/rust/src/handlers.rs:107-109 | sorting with repeats and then removing equal neighbours yields the same list |
| ProductIds.SortedIds | apps/python/main.py:295 | the sorted set of ids is strictly ascending and lists exactly the requested ids |
| ProductIds.LockOrderIsUnique | apps/aspnet/Program.cs:217 | whatever the service, an ascending list of exactly the requested ids is the common lock order |
| Orders.FirstShort | apps/go/handlers.go:203-217 | the line reported by a 409 is the first whose quantity exceeds the locked stock, and there is none exactly when every line passes |
| Orders.FirstMissing | apps/go/handlers.go:183-192 | the id reported by a 400 is the first in lock order that names no product, and there is none exactly when all exist |
| OrderLaws.DistinctLinesNeverOverdraw | apps/go/handlers.go:209-215 | when no product repeats, the per-line check passes exactly when the summed quantities are covered, so the stock CHECK cannot fire |
| OrderLaws.EnoughPassesPerLine | apps/go/handlers.go:209-215 | with positive quantities, covered sums always pass the per-line check |
| OrderLaws.PerLineCheckSufficesExactly | apps/go/handlers.go:209-215 | for every body, the per-line check keeps every allowed stock from being overdrawn if and only if each product has a line asking for as much as all its lines together |
| OrderLaws.DistinctExactlySuffices | apps/go/handlers.go:209-215 | with positive quantities those bodies are exactly the ones whose lines name distinct products |
| OrderLaws.PerLineCheckIsTooWeak | infra/postgres/init/01-schema.sql:38 | two lines of one product pass the per-line check although together they exceed the stock |
| OrderLaws.SnapshotPrices | apps/go/handlers.go:182-217 | total and first short line computed on locked values that are still current equal those on the tables |
| OrderLaws.EffectKeepsConstraints | infra/postgres/init/01-schema.sql:34-88 | for any request and fresh id, the CHECKs on prices, stock, totals and quantities, the unique key and the references among customers, products, orders, items and ledger still hold after |
| OrderLaws.Conservation | apps/go/handlers.go:255-266 | stock minus summed ledger deltas is unchanged for every product, whatever the outcome |
| OrderLaws.CreatedOrderIsWhole | apps/go/handlers.go:244-273 | a created order is stored as pending under the request's customer, key and time, with one item row and one ledger row per line at committed prices and opposite quantities; its total is the worth of those rows exactly when it fits, and no other order changes |
| OrderLaws.CreatedOrderWithinStock | infra/postgres/init/01-schema.sql:38 | a created order takes between nothing and the whole stock of each product, repeated lines summed |
| OrderLaws.ReplayedExactly | apps/go/handlers.go:201-235 | a used key is replayed if and only if the repeated body is non-empty, names known products, has each line in stock and a total that reaches the column and is not negative; the replayed order is then the key's only one |
| OrderLaws.NegativeRepeatIsNotReplayed | infra/postgres/init/01-schema.sql:60 | a stored key repeated with a negative quantity passes the stock check and fails on the total instead of being replayed |
| OrderLaws.ImmediateRetry | contracts/openapi.yaml:74-76 | a retry right after creation gets the identical 201 if and only if every line still fits in what the order left, and a 409 otherwise |
| OrderLaws.RetryAfterSellingOut | apps/spring/README.md:109 | a concrete order whose retry under the same key is answered 409 |
| Promises.SameConditions | apps/go/handlers.go:201-273 | the specification's checks are, in the words of the promise, the lines in stock, a total that can be stored, a key not yet taken, and positive quantities within the summed stock |
| Promises.DecidedExactly | apps/go/handlers.go:164-240 | an order is created, replayed or rejected exactly under those conditions, with the amount of its lines as total |
| Promises.ShowsRecorded | apps/go/handlers.go:305-332 | a replay is right exactly when it shows the columns of the stored row and, as a multiset, the product, quantity and price of the item rows with that order id |
| Promises.MissingIsLeast | apps/go/handlers.go:176-192 | the id reported by a 400 is the least requested one without a product |
| Promises.AnswerIsPromised | apps/go/handlers.go:138-340 | for every request and response, the specification gives that response if and only if it is the promised one, case by case: 400, 409, new order, replay, or a 500 with its cause |
| Promises.EffectIsPromised | apps/go/handlers.go:219-279 | a created order is written in full (its row, an item and a ledger row per line in order, less stock) with everything else unchanged; any other request leaves the tables alone |
| Promises.CreatedAnswer | apps/go/handlers.go:281-296 | the 201 of a new order has its id, the request's customer, status pending, its total, and its lines in order at committed prices |
| Promises.AtomicIsPromised | apps/go/handlers.go:138-340 | answer and tables together keep the promise for every request, whatever the id and time |
| Pricing.CheckAndTotal | apps/go/handlers.go:202-217 | the fused loop returns the first short line, or the exact total truncated to 32 bits |
| Pricing.RunningTotalWrapsOnce | apps/spring/src/main/java/com/bench/service/OrderService.java:67-78 | truncating at every step, as Go does, equals Spring's long sum cast once |
| Pricing.CheckStockFindsFirst | apps/phoenix/lib/router.ex:139-148 | the halting reduce over the remaining lines reports the first short line of the whole list |
| Pricing.TwoPassesAgreeWithOne | apps/phoenix/lib/router.ex:139-156 | a stock pass followed by a total pass reports the same line, or the same total, as one loop with early exit |
| Pricing.ExactUnderContract | apps/go/handlers.go:202-217 | with at most 20 lines, quantities 1..1000 and prices up to 107374 every product and every prefix sum of the 32-bit loop is the mathematical value |
| Pricing.ServicesAgreeUnderContract | apps/spring/src/main/java/com/bench/service/OrderService.java:64-78 | within the contract and at prices up to 107374, services that truncate the total and services that do not make the same decision, give the same answer and leave the same tables, and the total can always be stored |
| Pricing.OneCentMoreOverflows | apps/spring/src/main/java/com/bench/service/OrderService.java:64-66 | at 107375 cents a request within the contract has a negative 32-bit total |
| Pricing.WrappedTotalCanBeCommitted | infra/postgres/init/01-schema.sql:34-60 | a schema-valid price makes Go store a small positive total for an order worth 2^32 cents more |
| Pricing.SeededOrdersAreExact | bench/seed/seed.py:71 | on prices from 100 up to, not including, 100 + 99900 every body within the contract gets its exact total from the 32-bit loop |
| Body.ParseBody | apps/python/main.py:248-266 | a body is accepted if and only if the checks pass, its lines are then the listed ones in order and within the contract; a body made from a customer and lines is read back as they are exactly when the customer and products are at least 1, the lines 1 to 20 and the quantities 1 to 1000, and is rejected otherwise |
| Body.GoodBodyObject | apps/python/main.py:248-266 | a body made from a customer and lines is accepted exactly within those numbers, each line being read as it was written |
| Body.MalformedBody | apps/python/main.py:249-256 | anything but an object with an integer customer and a list is rejected |
| Body.MalformedLine | apps/python/main.py:257-265 | one line that is no object, lacks a field, or has one that is no integer rejects the body |
| Handler.Connection.InsertOrder | apps/go/handlers.go:221-226 | a total the CHECK refuses fails even under a used key, a used key conflicts before the customer is looked up, neither inserts anything, otherwise the row is stored under the next id; the id sequence always moves on |
| Handler.Connection.DecrementStock | apps/go/handlers.go:264-267 | stock falls by the quantity exactly when it stays non-negative and in range, and nothing else changes |
| Handler.Connection.ReturnExistingOrder | apps/go/handlers.go:299-340 | answers with the order stored under the key, showing the columns of its row and its item rows; without one it fails |
| Handler.Connection.LockProducts | apps/go/handlers.go:182-199 | stops at the first missing id, otherwise returns exactly the rows of the listed ids |
| Handler.Connection.WriteLine | apps/go/handlers.go:244-273 | a refused statement of a line proves that the whole order breaks a quantity or stock constraint |
| Handler.Connection.WriteLines | apps/go/handlers.go:244-273 | all lines are written if and only if quantities are positive and summed quantities are in stock; the tables then hold exactly the order's insertion |
| Handler.Connection.PlaceLocked | apps/go/handlers.go:201-297 | from the locked rows on, answer and tables are those of the specification |
| Handler.Connection.RunTransaction | apps/go/handlers.go:155-297 | from BEGIN to the response, answer and tables are those of the specification and no transaction stays open |
| Handler.Connection.CreateOrder | apps/go/handlers.go:138-297 | for every request and every valid database the answer and the committed tables are those of the atomic specification and the promised ones, field by field; the constraints still hold and no transaction stays open |
| Invariant.CommitIsCreate | apps/go/handlers.go:275 | a request that reaches its commit is, on the tables of that moment, decided as a creation with the total it inserted |
| Invariant.CommitIsAtomic | apps/go/handlers.go:242-297 | publishing a transaction's accumulated rows is the specification's effect in one step, and its 201 is the specification's answer |
| Preservation.MoveKeeps | apps/go/handlers.go:156-273 | every statement keeps the acting request's part of the invariant |
| Preservation.UndisturbedBy | apps/go/handlers.go:275 | a commit does not disturb any request that shares no lock, key or id with it |
| Preservation.LocksStayExclusive | apps/go/handlers.go:183-188 | no product row is ever locked by two requests |
| Preservation.KeysStayExclusive | infra/postgres/init/01-schema.sql:63 | no two unfinished transactions have inserted the same key or hold the same order id |
| Preservation.SlotsStayBounded | apps/python/main.py:288-289 | connections in use never exceed the pool, whatever the replay policy |
| Preservation.StepKeepsInv | apps/go/handlers.go:138-340 | every enabled step of every interleaving keeps the whole invariant, all table constraints included |
| Preservation.RunKeepsInv | apps/go/handlers.go:138-340 | every state of every run satisfies the invariant |
| Histories.RefinesAtomicOrders | apps/go/handlers.go:138-297 | for every interleaving of any number of requests the committed tables equal the atomic order placement applied to the committed requests in commit order, each decided as a creation in its turn |
| Histories.EveryAnswerIsAtomic | apps/go/handlers.go:138-340 | every answer, 500 included, is what the specification answers on the committed tables at some instant between the request's arrival and its answer, replayed lines compared as multisets, unless the request was cut short by a failure or a lost acknowledgement |
| Histories.AnswerNow | apps/go/handlers.go:183-273 | a statement that ends the request without being cut short gives the specification's answer on the tables of that moment |
| Histories.DecrementAnswers | infra/postgres/init/01-schema.sql:38 | a decrement the stock CHECK refuses proves that the specification refuses the order too |
| Histories.OrderStays | apps/go/handlers.go:305-332 | no step changes a stored order or its item and ledger rows |
| Guarantees.OrderIsPermanent | apps/go/handlers.go:299-340 | a stored order and its rows read the same at every later state of a run |
| Guarantees.RequestStays | apps/go/handlers.go:138-340 | no later step changes a request's body or an answer already given |
| Guarantees.UsedKeyNeverCommitsAgain | infra/postgres/init/01-schema.sql:63 | once a key is stored no later step of the run commits an order under it |
| Guarantees.KeyCommitsOnce | contracts/openapi.yaml:74-76 | over a whole run two commits never carry the same key |
| Guarantees.SameKeySameOrder | contracts/openapi.yaml:74-76 | all 201 answers under one key carry the same id, customer, status, total and item multiset, even when the bodies differ |
| Guarantees.RepeatedKeyAnswer | apps/go/handlers.go:219-235 | a request repeating a stored key is answered with that order, its columns and its item rows as they were stored, or with a 400, a 409 or an abort, and with no other 201 |
| Guarantees.EveryPlacedIsStored | apps/go/handlers.go:290-339 | every 201 shows, then and ever after, the order stored under the request's own key |
| Guarantees.EveryAnswerIsPromised | apps/go/handlers.go:138-340 | under every interleaving each answer is the promised one on the tables at some instant of the request; a 500 has its cause there, or the request was cut short |
| Guarantees.StockIsConserved | apps/go/handlers.go:242-273 | in every state of every run, current stock is initial stock plus the ledger deltas written since, and is not negative |
| Guarantees.CommittedOrderIsWhole | apps/go/handlers.go:244-279 | at every later state a committed order is pending under the request's customer, key and time, with exactly its lines' item and ledger rows at the prices committed then, within the stock it locked, and an exact total if and only if that fits 32 bits |
| Guarantees.OnlyCommitsLeaveTraces | apps/go/handlers.go:162 | after any run with aborts at any statement, every row beyond the initial ones belongs to an order that a step committed |
| Guarantees.LockedRowIsStable | apps/go/handlers.go:183-199 | as long as a request holds a row's lock, no step of any request changes the committed row, and it is the row that was read |
| Liveness.StuckExactlyWhenWedged | apps/python/main.py:361-366 | a reachable state with unfinished requests has no possible progress if and only if every slot is held by a request waiting for its second one |
| Liveness.NoDeadlock | apps/node/src/index.js:299-305 | for every policy but the nested one and every pool of at least one, some unfinished request can always progress |
| Liveness.RunsAreBounded | apps/go/handlers.go:164-240 | with no new arrivals a run has at most as many steps as statements remain |
| Liveness.StepsWithinLimit | apps/go/handlers.go:164-297 | with no new arrivals at most nine steps and four for each line remain of every unfinished request |
| Liveness.EveryRequestCanBeAnswered | apps/go/handlers.go:164-297 | every run extends, by successful statements alone, to one in which every request is answered, and each one that was still waiting gets the promised answer |
| Wedge.EveryPoolCanWedge | apps/python/main.py:289-325 | for every pool size some run of the nested policy reaches a state with unanswered requests and no possible progress |
| Resources.ConnectionsWithinPool | apps/python/main.py:288-289 | in every reachable state the connections of open transactions and of replays, first and second ones, are together at most the pool |
| Resources.LocksKeptToTheEnd | apps/go/handlers.go:162-199 | a lock once taken is kept until the answer or the rollback before a replay, and through the replay only inside Spring's transaction |
| Resources.WaitsExactlyWhenHeldUp | apps/go/handlers.go:183-226 | a request waits if and only if the pool is full when it needs a connection, another request holds its next row, or another transaction has inserted its key |
| Resources.FailuresAreFree | infra/postgres/postgresql.conf:130-132 | any unfinished request may fail at any time; it answers 500, the tables stay, and all it held is free |
| Resources.AcknowledgementsMayBeLost | apps/go/handlers.go:275-279 | a commit may lose its acknowledgement and then changes the same tables |
| Resources.ArrivalsAreFree | apps/go/handlers.go:138-156 | any request may arrive at any time and takes nothing by arriving |
| Resources.ClockAndRowOrderAreFree | apps/go/handlers.go:315-318 | orders may be inserted at any clock time, and a replay's rows may come back in any order |
| Dashboard.MatchesCount | apps/go/handlers.go:358-368 | over any scan of the orders the matching join rows count and sum the distinct matching orders |
| Dashboard.JoinCounts | apps/go/handlers.go:360-369 | in the left join over all categories each group counts and sums only its own matches, a category without any counting zero |
| Dashboard.ReportIsCorrect | apps/go/handlers.go:354-371 | the grouped query lists each category exactly once in id order with the number and total of the distinct paid or shipped orders of the window that have a line in it |
| Dashboard.ReportedExactly | apps/go/handlers.go:362-368 | an order is reported for a category exactly when it is paid or shipped, was created at most days * 24 * 60 * 60 seconds ago and has a line of a product of that category |
| Dashboard.OneOrderReport | apps/go/handlers.go:354-371 | with one order in the only category the report is one row showing the order and its total, or zeros when it is pending, cancelled, or a second too old |
| Dashboard.WiderWindowReportsMore | apps/go/handlers.go:354-371 | with more days the query returns the same categories in the same places and no count or total is lower, in whatever order the table is scanned |
| Dashboard.EffectKeepsReport | apps/go/handlers.go:221-226 | placing an order never changes any category's reported orders |
| Dashboard.RunsKeepDashboard | apps/go/handlers.go:354-371 | for a fixed now, the dashboard shows the same rows before and after any run of order creation, in whatever order the table is scanned |
| HtmlEscape.ChainIsOnePass | apps/rust/src/handlers.rs:342-345 | for every string, whole-string replacements with the ampersand first equal one pass over the characters |
| HtmlEscape.NoRawCharacters | apps/node/src/index.js:126-133 | no escaped character but the ampersand survives in the output |
| HtmlEscape.UnescapeInverts | apps/bun/src/index.ts:338-339 | unescaping recovers the input, for every string |
| HtmlEscape.DashboardNamesAreSafe | apps/phoenix/lib/router.ex:308-314 | all of this for the concrete tables of the services: single pass, no raw markup, recoverable |
| HtmlEscape.CharactersEscaped | apps/node/src/index.js:126-133 | a name is escaped character by character: the ampersand, less-than, greater-than and quote become their own entities, in Node the apostrophe too, and nothing else changes |
| HtmlEscape.AmpersandLastEscapesTwice | apps/rust/src/handlers.rs:343 | with the ampersand replaced last an entity is escaped again, so the order matters |
| PercentCoding.DecodeIsIdentity | apps/aspnet/Program.cs:387 | unescaping leaves a string as it is if and only if no position starts an escape that decodes |
| PercentCoding.HexDigits | apps/aspnet/Program.cs:406-410 | hexadecimal digits by their ASCII codes, in either case, the high one first |
| PercentCoding.EscapeExamples | apps/aspnet/Program.cs:406-410 | escapes of one to four UTF-8 bytes decode to the right characters |
| PercentCoding.PlainExamples | apps/aspnet/Program.cs:406-410 | over-long forms, surrogates, values beyond Unicode and broken escapes do not decode |
| PercentCoding.DecodeEncoded | apps/aspnet/Program.cs:406-410 | unescaping a percent-encoded string recovers it, for every string of characters up to four UTF-8 bytes |
| PercentCoding.EncodedIsTransparent | apps/aspnet/Program.cs:381-403 | an encoded string holds only unreserved characters and percent signs, so none of the separators |
| ConnectionUrl.IndexOf | apps/aspnet/Program.cs:381 | the first position of a character, or -1 exactly when there is none |
| ConnectionUrl.LastIndexOf | apps/aspnet/Program.cs:389 | the last position of a character, or -1 exactly when there is none |
| ConnectionUrl.ComposedUrl | docker-compose.yml:114 | a URL made from the template is split as its text after the scheme is |
| ConnectionUrl.SeparablePartsSplit | apps/aspnet/Program.cs:379-404 | parts without the separators that would mislead the cuts come back unchanged; passwords may hold an at sign or a colon |
| ConnectionUrl.EncodedRoundTrip | apps/aspnet/Program.cs:365-415 | with percent-encoded parts all five are recovered, for arbitrary strings |
| ConnectionUrl.RawRoundTripExactly | docker-compose.yml:114 | raw parts are all recovered if and only if they are separable and hold no escape that decodes |
| ConnectionUrl.SchemesExactly | apps/aspnet/Program.cs:369-379 | a text is split after its scheme exactly when that is postgres or postgresql in any case, and is otherwise passed on as it is |
| ConnectionUrl.TextWithoutScheme | apps/aspnet/Program.cs:369-377 | a text without a scheme is passed on as it is |
| ConnectionUrl.QueryIsIgnored | apps/aspnet/Program.cs:381-382 | a query changes nothing |
| ConnectionUrl.PartsMayBeMissing | apps/aspnet/Program.cs:384-398 | a missing database, password or user is empty and a missing port is 5432 |
| ConnectionUrl.PortsExactly | apps/aspnet/Program.cs:397-404 | decimal digits up to 2147483647 are the port, and any other text counts as 5432 |
| ConnectionUrl.DigitsAreDecimal | apps/aspnet/Program.cs:403 | ports are written and read in base ten |
| Histogram.Metrics.Observe | apps/phoenix/lib/metrics.ex:25-31 | each call adds one entry and keeps every earlier one, also for equal labels and values |
| Histogram.Metrics.Render | apps/phoenix/lib/metrics.ex:33-73 | what is rendered from the stored observations is what cumulative counters kept along the way hold, in label order |
| Histogram.SortRowsSorts | apps/phoenix/lib/metrics.ex:54 | sorting by the label triple gives a strictly ascending list of the same rows |
| Histogram.BelowByParts | apps/phoenix/lib/metrics.ex:54 | triples are ordered by path, then method, then status, each at the first character that differs or by length |
| Histogram.GroupIsSeries | apps/phoenix/lib/metrics.ex:49-57 | a label triple is grouped exactly when listed, and its rendered group is the running histogram of its entries |
| Histogram.AnyOrderSameSeries | apps/phoenix/lib/metrics.ex:48 | two listings of the same entries give the same histogram |
| Histogram.RenderShowsCounters | apps/phoenix/lib/metrics.ex:33-73 | for every history, every order of the table listing and every order of the grouping map, the rendered buckets, counts and sums are those of incrementally kept counters, one series per observed triple |
| Histogram.RenderIgnoresTableOrder | apps/phoenix/lib/metrics.ex:47-55 | the rendered rows do not depend on the order in which table and map list their contents |
| Histogram.BucketsAreCumulative | apps/phoenix/lib/metrics.ex:61-69 | bucket counts never fall as the bound grows and never exceed the count |
| Histogram.CountIsCardinality | apps/phoenix/lib/metrics.ex:64 | a bucket counts the values that do not exceed its bound |
| Histogram.OneObservation | apps/phoenix/lib/metrics.ex:18-72 | one observation is counted in each of the thirteen buckets, bound by bound, that it does not exceed, with count one and itself as sum |
| Histogram.CountsAddUp | apps/phoenix/lib/metrics.ex:25-58 | the counts over all label triples add up to the number of observations |

## Left out

- HTTP routing, headers, JSON codecs, logging, metrics endpoints other than Phoenix's numbers, startup and shutdown: the model starts from a decoded request and a decoded key, and key syntax errors are not modelled.
- PostgreSQL itself: only READ COMMITTED row locks that read the latest committed row, inserts that wait for an unfinished holder of their key, constraint failures, and identity values that are never reused. The order in which waiting requests get a lock is left open.
- OrderLaws.EffectKeepsConstraints: the names and skus of products, and the category a product refers to, are not part of `Valid`; requests neither read nor write them.
- Handler.Connection.CreateOrder: one request at a time; lost connections, lock timeouts and interleaving are in `Protocol`, whose steps are values and not statements on a class.
- Handler.Connection.ReturnExistingOrder: returns the items in the table's row order; the query has no ORDER BY, so `Protocol` lets the rows come back in any order and compares multisets.
- Histories.EveryAnswerIsAtomic: a request that is cut short answers 500 whatever the tables hold, because a lock wait or a statement may time out at any step (infra/postgres/postgresql.conf:130-132).
- Rolling back and reading the stored order are separate steps in `Protocol`; for 400 and 409 the answer and the release of locks and connection are one step.
- Changes to prices, statuses or stock by anyone but these requests: nothing else in the repository writes them while the services run.
- Phoenix's response mapping (apps/phoenix/lib/router.ex:108-136): an error value returned from the transaction arrives wrapped and matches no clause, so its 400 and 409 are not part of the refinement; only its pure passes are.
- Node's path where the replay read throws after the client was released (apps/node/src/index.js:303-304 and 342-348): the read is taken to succeed or to abort.
- Node and Bun add totals in doubles; they are modelled as exact integers, which holds below 2^53.
- Fractional JSON numbers are in `Body` only as values that are not integers; `product_id` and `customer_id` beyond the column's 64 bits are not treated specially.
- Dashboard.ReportIsCorrect: a day of the window is 86400 seconds, which is what the interval means in UTC, the server's own setting (infra/postgres/postgresql.conf:137); for a client that sets a zone with daylight saving a calendar day may differ by an hour.
- The dashboard's parsing of `days`, its HTML around the names and its dollar formatting; the library escapers of Go, Python, Spring and ASP.NET.
- ConnectionUrl.BuildConnectionSettings: the Npgsql builder's own validation and pool sizes are left out, and a port is parsed from decimal digits only, without the white space or sign that int.TryParse would also accept.
- Histogram.Metrics.Render: values and sums are real numbers, and the text layout of the lines and the placeholder for an empty table are left out.
- The k6 scripts, shell drivers, and the statistics and report scripts: orchestration, floating point and templates.
