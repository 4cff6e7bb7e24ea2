# Wallet transaction graph: a Dafny model

The repository is a small Next.js application. It shows the transactions of a
wallet address as a force-directed graph, with the records kept in a Neo4j
graph database. This project models three parts of it and proves properties
of the model:

- **The graph build** of the `TransactionGraph` component
  (`transaction_graph.dfy`, module `TransactionGraph`). First the reply of
  the transactions API is checked. Then the records are folded into a
  `Map<string, GraphNode>` keyed by address, plus a list of links.
  - The JavaScript `Map` is modelled as two variables updated in place: a
    map and the sequence of its keys in insertion order.
  - `Array.from(nodes.values())` reads the map's values in that order.
  - The build is a method with a loop, `BuildGraph`. It is proved equal to a
    reference definition, `ExpectedGraph`: one node per *first sighting* of
    each address (the sender before the receiver of each record) and one link
    per record that carries both addresses.
  - The node field the source calls `label` is called `caption` here.
  - `shortenAddress` and `getNameForAddress` are modelled as functions.
- **The parameter handling of `GET /api/transactions`** (`pagination.dfy`,
  module `Pagination`). This covers:
  - the `page`/`offset` defaults `"1"` and `"50"`;
  - the 400 replies, with the address checked before the numbers;
  - `parseInt(…, 10)`, modelled in `decimal.dfy` (module `Decimal`): leading
    JavaScript whitespace, an optional sign, the longest run of digits, and
    NaN when there is no digit;
  - the `limit`/`skip` window.
- **The database helper `lib/neo4j.ts`** (`neo4j_client.dfy`, module
  `Neo4jClient`).
  - The module-level `driver` becomes the field of a class `Connection`.
  - The methods `GetDriver`, `CloseDriver` and `RunQueryWithRetry` update
    that field in place.
  - The driver library is replaced by oracle outcomes (a `Script` per
    attempt): creating the driver, opening a session and running the query
    each succeed or throw.
  - A ghost log records what the helper asks of the library: drivers
    created and closed, sessions opened and closed, and the backoff delays
    waited.
  - The retry loop is proved against `RetryResult` and `RetryEvents`, a
    reference definition over the outcomes of the attempts. The lemmas below
    state the retry policy in terms of that definition.

`wrappers.dfy` holds the `Option` and `Result` datatypes.

## Model

| member | source | states |
|---|---|---|
| TransactionGraph.ShortenAddress | components/TransactionGraph.tsx:57-58 | `"Invalid"` exactly for the empty address. Otherwise: the first six characters, `...`, then the last four, each clipped to the address's length. |
| TransactionGraph.NameForAddress | components/TransactionGraph.tsx:61-67 | `Alice` exactly for the first known address, `Bob` exactly for the second, no name for any other. |
| TransactionGraph.NodeLabel | components/TransactionGraph.tsx:112 | The known name when there is one, else the shortened address. |
| TransactionGraph.ShortenedIsNoName | components/TransactionGraph.tsx:57-58 | A shortened address never equals a name of at most five characters without a dot in second place, such as `Alice` or `Bob`. |
| TransactionGraph.LabelNamesKnownWallets | components/TransactionGraph.tsx:112 | The label reads `Alice` exactly for the first known wallet and `Bob` exactly for the second; a shortened address never passes for a name. |
| TransactionGraph.NodeOf | components/TransactionGraph.tsx:110-115 | The node set for an address carries that address as its id and the role it was first seen in (`out` for a sender, `in` for a receiver) as its type. Its caption is `NodeLabel` of the address. |
| TransactionGraph.Present | components/TransactionGraph.tsx:106 | JavaScript truthiness of an address: present and not the empty string. |
| TransactionGraph.IsComplete | components/TransactionGraph.tsx:106 | A record is used exactly when both its sender and receiver addresses are truthy. |
| TransactionGraph.LinkOf | components/TransactionGraph.tsx:130-134 | A link runs from the record's sender to its receiver. |
| TransactionGraph.CheckResponse | components/TransactionGraph.tsx:90-92 | Success exactly when the reply exists, is successful and has a transaction array, which it hands on. Otherwise an error: the reply's own error text when it is non-empty, else `Invalid transaction data`. |
| TransactionGraph.Complete | components/TransactionGraph.tsx:106 | Only records with both addresses are kept, never more than the input. An input made only of such records is kept whole and in order. With `IncompleteIgnored`, this makes it the in-order filter of complete records. |
| TransactionGraph.FirstSightings | components/TransactionGraph.tsx:108-127 | Dropping repeated addresses keeps every address that was seen. |
| TransactionGraph.FirstSightingsFacts | components/TransactionGraph.tsx:108-127 | Every kept sighting was seen, and no address is kept twice. |
| TransactionGraph.SightingsCover | components/TransactionGraph.tsx:101-127 | The build visits exactly the sender and receiver addresses of the records with both addresses. It types each as `out` or `in`, never both. |
| TransactionGraph.SetIfAbsent | components/TransactionGraph.tsx:108-127 | `nodes.has`/`nodes.set`: an address not yet present is appended with its node. An address already present leaves keys, order and nodes unchanged. The map stays equal to the reference map of first sightings. |
| TransactionGraph.AddTransaction | components/TransactionGraph.tsx:99-136 | One `forEach` step. The key order, the node map and the links after the step equal the reference definitions of the records seen so far plus this one. |
| TransactionGraph.ValuesInOrder | components/TransactionGraph.tsx:138 | Reading the node map's values in key-insertion order gives one node per first sighting, in order. |
| TransactionGraph.BuildGraph | components/TransactionGraph.tsx:94-138 | The graph the loop builds is exactly `ExpectedGraph` of the records. |
| TransactionGraph.LoadGraph | components/TransactionGraph.tsx:88-138 | A rejected reply yields that error. An accepted one yields the expected graph of its transactions. |
| TransactionGraph.GraphNodes | components/TransactionGraph.tsx:94-138 | Node ids are unique. Every node is `in` or `out`, labelled from its own id. The node ids are exactly the endpoints of the records with both addresses. |
| TransactionGraph.GraphLinks | components/TransactionGraph.tsx:130-134 | One link per record with both addresses, in input order, with that record's sender and receiver. Both ends of every link are nodes. |
| TransactionGraph.NodesNeverOverwritten | components/TransactionGraph.tsx:108 | More records never change or reorder the nodes already built: the earlier nodes are a prefix of the later ones. |
| TransactionGraph.LookupPersists | components/TransactionGraph.tsx:119 | Once an address has a node, later records leave that node as it is. |
| TransactionGraph.LinksInInputOrder | components/TransactionGraph.tsx:130-134 | The links of `txs + more` are the links of `txs` followed by those of `more`. |
| TransactionGraph.IncompleteIgnored | components/TransactionGraph.tsx:106 | A record missing either address changes neither the nodes nor the links, wherever it stands. |
| TransactionGraph.FirstMention | components/TransactionGraph.tsx:106-127 | In the record that first mentions an address, the sender is added before the receiver. The address's node is `out` if it is the sender, else `in`. |
| TransactionGraph.FirstSightingFixesType | components/TransactionGraph.tsx:99-127 | The first record that mentions an address fixes its node for the whole graph: `out` when the address is that record's sender (a self-transfer included), `in` otherwise. |
| Decimal.FormatNat | lib/neo4j.ts:118 | The decimal digits of a natural number: non-empty, no leading zero, and they read back as the number. |
| Decimal.ParseInt | app/api/transactions/route.ts:31-32 | `parseInt(s, 10)`: text made only of whitespace (or empty) is NaN. A text starting with a digit reads as the value of its leading run of digits. |
| Decimal.Format | lib/neo4j.ts:118 | The text of an integer, as `${n}` writes it, is non-empty and starts with `-` exactly when the integer is negative. |
| Decimal.ParseFormatThen | lib/neo4j.ts:118 | Reading the text of an integer followed by anything that does not start with a digit gives that integer. |
| Decimal.ParseIntReads | app/api/transactions/route.ts:31-32 | `parseInt`: leading whitespace, an optional sign, then a run of digits that the rest does not continue give that signed value. |
| Decimal.ParseIntNaN | app/api/transactions/route.ts:31-35 | `parseInt` is NaN when no digit follows the whitespace and the optional sign. |
| Decimal.SkipWhitespace | app/api/transactions/route.ts:31-32 | Leading whitespace does not change what `parseInt` reads. |
| Decimal.ParseFormat | app/api/transactions/route.ts:31-32 | Reading back the decimal text of any integer gives that integer. |
| Decimal.ParseTruncates | app/api/transactions/route.ts:30-32 | A fractional part after the integer text is cut off. |
| Pagination.OrDefault | app/api/transactions/route.ts:23-24 | An absent or empty parameter takes the default; any other value is kept. |
| Pagination.ClampNonNegative | app/api/transactions/route.ts:40-41 | `Math.max(0, x)`: non-negative values are kept, negative ones become 0. |
| Pagination.WindowOf | app/api/transactions/route.ts:40-41 | `limit` is the offset when that is non-negative, else 0. `skip` is `(page - 1) * limit` from page 1 on, and 0 for pages at or below 1. |
| Pagination.Paginate | app/api/transactions/route.ts:21-41 | Every error is a 400. `Address is required` exactly when the address is absent or empty. `Invalid page or offset value` exactly when an address is given and either number is NaN. Otherwise the window of the parsed numbers. |
| Pagination.DefaultsRead | app/api/transactions/route.ts:23-24 | The default texts read as page 1 and offset 50. |
| Pagination.DefaultWindow | app/api/transactions/route.ts:23-24 | Without page and offset (or with them empty), the window is `limit` 50, `skip` 0. |
| Pagination.AddressCheckedFirst | app/api/transactions/route.ts:26-28 | A request without an address is refused as such, whatever its page and offset. |
| Pagination.DecimalsTruncated | app/api/transactions/route.ts:30-32 | A page or offset written with decimals is served as its integer part. |
| Pagination.TwoPointSevenIsTwo | app/api/transactions/route.ts:30-32 | The page text `2.7` reads as 2. |
| Pagination.WindowOfPage | app/api/transactions/route.ts:31-41 | A request for page `p` of size `n`, written as integers, gets `WindowOf(p, n)`. |
| Pagination.ConsecutivePages | app/api/transactions/route.ts:40-41 | From page 1 on, consecutive pages have the same limit and start exactly one limit apart, so the windows tile the results without gap or overlap. |
| Pagination.FirstPageStartsAtZero | app/api/transactions/route.ts:41 | Pages at or below 1 skip nothing. |
| Pagination.NonPositiveOffsetIsEmpty | app/api/transactions/route.ts:40-41 | A zero or negative offset gives the empty window `limit` 0, `skip` 0. |
| Neo4jClient.RunAttempt | lib/neo4j.ts:94-101 | One attempt. Without a driver and configuration it fails with the configuration error. It creates a driver exactly when none exists, the environment is configured and creating succeeds. A failed creation fails with the library's message. It opens a session exactly when a driver is available and opening succeeds; a failed opening fails with its message. With a session open it succeeds with the run's records, or fails with the run's message. |
| Neo4jClient.AttemptLimit | lib/neo4j.ts:93 | The loop runs `maxRetries` times when that is non-negative, and never otherwise. |
| Neo4jClient.AttemptEvents | lib/neo4j.ts:94-115 | An attempt that created the driver logs that first. An attempt that opened a session logs its close last, after the backoff wait of the `catch` block. |
| Neo4jClient.FailureMessage | lib/neo4j.ts:118 | The thrown message ends with the last failure's message, or `undefined` when there was none. |
| Neo4jClient.FailureMessageCount | lib/neo4j.ts:118 | The thrown message starts with `Query failed after `, and the number that follows reads back as `maxRetries`. |
| Neo4jClient.FirstSuccess | lib/neo4j.ts:93-98 | The index of the first successful attempt; every earlier attempt failed. |
| Neo4jClient.Connection.constructor | lib/neo4j.ts:3 | The helper starts with no driver. |
| Neo4jClient.Connection.GetDriver | lib/neo4j.ts:5-38 | An existing driver is returned unchanged. Missing or empty variables give the configuration error. A failed creation is rethrown and leaves no driver. Otherwise exactly one fresh driver is created, stored and returned. |
| Neo4jClient.Connection.CloseDriver | lib/neo4j.ts:40-50 | No driver: nothing happens. A successful close forgets the driver. A failed close is rethrown and keeps the driver. |
| Neo4jClient.Connection.AttemptOnce | lib/neo4j.ts:94-115 | One loop pass. Its outcome, driver state and log are those of `RunAttempt` from the current driver state: a wait only after a failure that is not the last allowed attempt, and the opened session closed last. |
| Neo4jClient.Connection.RunQueryWithRetry | lib/neo4j.ts:86-119 | The result is `RetryResult`: the first success's records, else the failure naming `maxRetries` and the last error. The log gains `RetryEvents`. The driver ends as the attempts made leave it; an existing driver is kept. |
| Neo4jClient.FirstSuccessReturned | lib/neo4j.ts:96-98 | The first success is returned, and no later attempt is made or logged. |
| Neo4jClient.AllFailed | lib/neo4j.ts:118 | When every allowed attempt fails, all are made. The error reads `Query failed after <maxRetries> attempts: <last message>`, with `undefined` when there was no attempt. |
| Neo4jClient.AttemptBound | lib/neo4j.ts:93 | At most `maxRetries` attempts. None when it is not positive: then nothing is logged and the call fails with `undefined` as the last message. |
| Neo4jClient.BackoffSchedule | lib/neo4j.ts:103-106 | The call waits `2^i * 1000` ms after each failed attempt `i` except the last one made. There is no wait after a success or after the last allowed attempt. |
| Neo4jClient.TotalBackoff | lib/neo4j.ts:103-106 | When all `n >= 1` attempts fail, the waits add up to `1000 * (2^(n-1) - 1)` ms. |
| Neo4jClient.DefaultRetryWaits | lib/neo4j.ts:89-106 | With the default of three attempts all failing, the call waits 1000 ms, then 2000 ms, and fails. |
| Neo4jClient.SessionsClosed | lib/neo4j.ts:107-115 | Every session a call opens is closed before the next one opens and before the call returns or throws. |
| Neo4jClient.DriverCreatedAtMostOnce | lib/neo4j.ts:5-38 | One retrying call creates at most one driver, and none when a driver already exists: later attempts reuse it. |

## Left out

- Rendering: the React state (`loading`, `error`, `graphData`), the page layout and the force-graph drawing are not modelled.
- `getRandomColor`: a node's random colour is not modelled, because it is randomness with no effect on the graph's structure.
- `Number.parseFloat` of a link's value: the link keeps the raw value text, `"0"` when it is absent. Floating-point parsing is outside the model.
- The `fetch` call and its HTTP-status error: the reply reaches `CheckResponse` as a parameter (`None` for a reply that is not an object).
- TransactionGraph.NameForAddress: the lookup is over the two own entries of the name table. A key inherited from `Object.prototype`, such as `constructor`, would give a non-null value in JavaScript; the model does not capture this.
- The component asks for `limit=50`, but the route reads `page` and `offset` and ignores `limit`. The route replies with a bare array of transaction properties, which the component's check would refuse. The component and the route are not connected end to end.
- TransactionGraph.ShortenAddress: JavaScript's `slice(0, 6)` and `slice(-4)` count UTF-16 code units, while a Dafny `string` counts Unicode scalar values. The two differ for characters outside the Basic Multilingual Plane. For an address of seven emoji, JavaScript keeps three emoji before the ellipsis and two after it (possibly splitting a surrogate pair), while the model keeps six and four.
- Transaction: a record's addresses are modelled as optional strings. In the source, `tx?.From?.addressId` is untyped. A truthy address that is not a string (a number, or a neo4j Integer) makes `shortenAddress` throw a `TypeError`, which sends the whole build to the component's error state. The model cannot represent such a record.
- URL decoding of query parameters: parameters reach `Paginate` as decoded strings.
- The route's own database session, the Cypher query and its 500 reply are not modelled. Neither are the search route, `app/api/neo4j.js`, the presentational components or `lib/types.ts`.
- Decimal.ParseIntReads: JavaScript number precision is not modelled. `parseInt` beyond 2^53 rounds, and `${n}` uses exponent notation from 1e21 on; the model reads and writes exact integers. `Math.floor` in `route.ts:40-41` is the identity on these integers.
- Neo4jClient.Connection.RunQueryWithRetry: calls are modelled one at a time. The source is asynchronous: at every `await` (`session.run`, the backoff `setTimeout` at `lib/neo4j.ts:105`, `session.close` at `lib/neo4j.ts:110`, `driver.close` at `lib/neo4j.ts:43`) another request may run `getDriver` or `closeDriver` and create or reset the shared driver. `DriverAfter`, the claim that an existing driver is kept, and `DriverCreatedAtMostOnce` hold only for calls that do not interleave.
- Neo4jClient.Connection.RunQueryWithRetry: `maxRetries` is an integer. A fractional or NaN `maxRetries` is not modelled.
- Neo4jClient.Connection.RunQueryWithRetry: a thrown value that is not an `Error` (no `message`) is modelled like an `Error` with a message.
- `setTimeout`: delays are recorded as `Waited` events in the ghost log; no time passes.
- The driver library: the driver options, its logging, sessions' contents and `verifyConnectivity` (`initializeDriver`) are outside the model. Their outcomes are oracle parameters.
- `runQuery` (the single-attempt helper) is not modelled. Its body is one pass of the retry loop without the wait.
- `session.close` failures are swallowed by the source. The model always logs the close.
- Console logging is not modelled.
