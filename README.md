# Avalanche full-node metrics exporter — Dafny model

The exporter serves a Prometheus `/metrics` endpoint for an Avalanche full node.
Each scrape polls the node's RPC endpoint for its latest block and that block's
timestamp. It asks the node-info endpoint for the running version and reads the
wallet's stored `last_block` checkpoint. It looks up that block's timestamp too.
Then it writes the results into five gauges and one info metric.

This project models the three pieces of logic in `app/api/metrics.py`:

- `wrappers.dfy`: `Option` and `Result`.
- `decimal.dfy` (module `Decimal`): Python's `int(s)` on the stored setting. It also
  has `str(n)` as the partner of a round-trip lemma.
- `release.dfy` (module `Release`): `get_latest_release`. This includes Python's
  `str.split`, its inverse `join`, and the version taken as `tag.split('v')[1]`.
- `poll.dfy` (module `Poll`): `get_all_metrics`. It is a pure function of the
  upstream answers: node reachability, the tip, a block-to-timestamp map, the
  node-info reply and the `last_block` row. The result is the response record or
  the exception that escapes.
- `metrics.dfy` (module `Metrics`): the registry. `Registry` is a class with one
  field per metric. Its `Update` method is the update policy of `get_metrics`. A
  pure `Apply` function specifies it, and lemmas about runs of scrapes are proved
  over `Apply`.

The model follows what the code does, including where that is not what one might expect:

- The code never calls `isConnected`. A node that does not answer makes the
  scrape raise; it does not report status 0 (see Findings).
- A node-info reply that is JSON but lacks `result.vmVersions.platform` raises
  `KeyError`. The lookup at line 45 is outside the `try`, so only a failed request
  gets the sentinel.
- A failed lookup of the checkpoint block raises. It does not turn into a
  disconnected snapshot.
- The version is the text between the first and second `'v'` of the tag, not the
  tag without a leading `v`.

`Registry.GetMetrics` uses the corrected poll, `Poll.GetAllMetricsIntended`.
The poll as written is `Poll.GetAllMetrics`, and lemmas state what it does.

## Model

| member | source | states |
|---|---|---|
| `Decimal.ParseInt` | app/api/metrics.py:49 | `int(pd.value)` yields a value exactly when the text is an optionally signed run of at most 4300 digits; otherwise it raises ValueError (None); unsigned text gives a non-negative value |
| `Decimal.ShowNat` | app/api/metrics.py:49 | `str(n)` of a natural number is a non-empty digit string without a leading zero |
| `Decimal.ShowInt` | app/api/metrics.py:49 | `str(n)` of any integer is text `int` accepts |
| `Decimal.DigitsRoundTrip` | app/api/metrics.py:49 | reading back the digits of `str(n)` gives `n` |
| `Decimal.ParseShow` | app/api/metrics.py:49 | `int(str(n)) == n` for every integer `n` whose decimal text is within the 4300-digit limit |
| `Release.Split` | app/api/metrics.py:24 | `str.split` always returns at least one piece |
| `Release.JoinSplit` | app/api/metrics.py:24 | joining the pieces of `s.split(c)` with `c` gives back `s` |
| `Release.SplitPiecesFree` | app/api/metrics.py:24 | no piece of `s.split(c)` contains `c` |
| `Release.TagVersionMissing` | app/api/metrics.py:24 | `tag.split('v')[1]` raises IndexError exactly when the tag has no `'v'` |
| `Release.TagVersionOfSlot` | app/api/metrics.py:24 | text between the first `'v'` and the second `'v'` (or the end) is the version that `split('v')[1]` returns |
| `Release.SlotOfTagVersion` | app/api/metrics.py:24 | every version `split('v')[1]` returns lies between the first `'v'` and the second `'v'` (or the end) of the tag |
| `Release.ExampleTag` | app/api/metrics.py:24 | the tag `v1.10.3` gives version `1.10.3` |
| `Release.GetLatestRelease` | app/api/metrics.py:18-27 | returns False exactly for names other than `avalanchego`; succeeds exactly when `name`, `tag_name` and `published_at` are present and the tag has a `'v'`; the record then has exactly the keys `name`, `tag_name`, `published_at`, `version`, copies the first three and holds `tag.split('v')[1]` as the version; a missing `tag_name` is the KeyError raised |
| `Poll.GetAllMetrics` | app/api/metrics.py:30-54 | the poll as written succeeds exactly when every upstream answers usably (a negative checkpoint never does); it then has status 1, the tip and the tip's timestamp, the version (or the sentinel `v999.999.999` when the info request raised), the `last_block` setting read as a non-negative integer, and the timestamp of that checkpoint block |
| `Poll.GetAllMetricsIntended` | app/api/metrics.py:34-57 | with `isConnected()` called, a node that does not answer gives the status-0 response; otherwise it is the poll as written; it never raises for an unreachable node or an unbound `response` |
| `Poll.UnreachableNodeRaises` | app/api/metrics.py:34-36 | as written, a node that does not answer makes the poll raise at the `block_number` read instead of reporting status 0 |
| `Poll.FalseGuardReadsUnbound` | app/api/metrics.py:55-57 | as written, the else branch raises UnboundLocalError (a NameError) because the local `response` is unassigned |
| `Poll.UnguardedCallsPropagate` | app/api/metrics.py:36-51 | a tip block or checkpoint block the node cannot return, a negative checkpoint included, is an escaping error, not a status-0 response |
| `Poll.NegativeCheckpointRaises` | app/api/metrics.py:49-51 | a stored `-5` reaches `get_block('-0x5')`, which raises: the poll fails with that block not found |
| `Poll.InfoFailureAbsorbed` | app/api/metrics.py:40-46 | a failed node-info request never decides whether the poll succeeds; the response differs only in carrying the sentinel version |
| `Poll.CheckpointRoundTrip` | app/api/metrics.py:48-52 | storing `str(n)` for a block number `n` (within the digit limit) as `last_block` on a healthy node makes the poll report wallet block `n` with the timestamp of block `n` |
| `Poll.CheckpointTimestampNotTips` | app/api/metrics.py:38-52 | the wallet timestamp is looked up by the checkpoint number, so it differs from the tip's timestamp whenever the node's timestamps for the two blocks differ |
| `Poll.HealthyScenario` | app/api/metrics.py:30-54 | checkpoint `12345`, tip `99999` at `1700000000` and block `12345` at `1690000000` give status 1, last block `99999` and wallet block `12345` at `1690000000` |
| `Metrics.ApplyAllAppend` | app/api/metrics.py:79-89 | successive scrapes compose: applying `a` then `b` equals applying `a + b` |
| `Metrics.FailuresKeepStale` | app/api/metrics.py:88-89 | after any run of responses with status other than 1, every gauge except the status, and the version info, keep their earlier values; the status is the last response's |
| `Metrics.RepeatedFailureIdempotent` | app/api/metrics.py:88-89 | applying a failed response `n >= 1` times gives the same registry as applying it once |
| `Metrics.SuccessOverwritesAll` | app/api/metrics.py:81-87 | after any history, a status-1 response leaves every gauge and the version info equal to that response's values |
| `Metrics.AsWrittenUnreachableKeepsStatus` | app/api/metrics.py:34-36 | as written, a scrape against a node that does not answer fails and leaves every gauge unchanged, the status gauge included |
| `Metrics.IntendedUnreachableReportsZero` | app/api/metrics.py:88-89 | with the corrected poll, a node that does not answer sets the status gauge to 0 and leaves every other gauge stale |
| `Metrics.Registry.constructor` | app/api/metrics.py:67-75 | the gauges start at 0 and the version info has no labels |
| `Metrics.Registry.Update` | app/api/metrics.py:81-89 | on status 1 all five gauges and the version info take the response's values; otherwise only the status gauge changes, to the response's status; the new state is `Apply` of the old one |
| `Metrics.Registry.GetMetrics` | app/api/metrics.py:79-91 | a scrape polls through the corrected poll `Poll.GetAllMetricsIntended`, applies the response, and exposes the new gauges; a poll that raises fails the scrape and changes nothing (as written, an unreachable node is such a raising poll: `Metrics.AsWrittenUnreachableKeepsStatus`) |

## Left out

- The HTTP calls to the release-listing API and to the node-info endpoint (lines 23, 42) are network I/O. Their results are inputs: the decoded release JSON and an `InfoReply`.
- Building the Web3 provider, its timeout and the POA middleware (lines 31-32) are transport plumbing. The node is a value with a reachability flag, a tip and a block-to-timestamp map, read once per poll. A node that goes down between two calls of one poll is not modelled separately; its failure is the `BlockNotFound` error.
- `w3.toHex` (lines 38, 51) converts a block number to hex for the RPC request. It is treated as lossless, and blocks are looked up by number.
- The SQLAlchemy query (line 48) is the storage engine. The row is an optional string value.
- Unregistering the default collectors (lines 13-15) and `generate_latest()` rendering (line 91) are library internals. `Registry.GetMetrics` returns the gauge values instead of exposition text.
- Flask routing (line 78) and the import-time `avalanchego_last_release` info metric (lines 59-65) are not modelled. That also leaves out what `Info.info(False)` does when the name is not tracked.
- Registry updates are not atomic with respect to concurrent scrapes. The source has no locking, and concurrency is not modelled.
- Metrics.Registry.Update: gauge values are modelled as integers. prometheus_client stores floats, so block numbers or timestamps above 2^53 would lose precision.
- Decimal.ParseInt: Python's `int` also accepts surrounding whitespace, `_` between digits and non-ASCII digits. The model treats those as not integers. The digit limit is CPython's default of 4300 (3.11 and later, and security releases of 3.7-3.10); older interpreters have no limit, and a limit changed with `sys.set_int_max_str_digits` is not modelled.
- Decimal.ShowInt: `str(n)` raises ValueError beyond 4300 digits, but ShowInt still returns the text. It only serves as the inverse in `Decimal.ParseShow`, which is stated within the limit.
- Release.GetLatestRelease: JSON values are modelled as strings. A non-string `tag_name` (AttributeError on `split`) is not modelled.
- Poll.GetAllMetrics: an info reply whose intermediate values are not objects (TypeError) is folded into the missing-key error `NodeVersionMissing`.

## Findings

| source | as written | input that shows it | evidently intended | confidence | as-written member | corrected member |
|---|---|---|---|---|---|---|
| app/api/metrics.py:34 | `if w3.isConnected:` tests the bound method object, which is always truthy | a node that does not answer: the poll raises at `w3.eth.block_number`, the scrape fails and the status gauge never drops to 0 | call `w3.isConnected()` and report status 0 when the node is down | high; not executed | `Poll.UnreachableNodeRaises` | `Poll.GetAllMetricsIntended` |
| app/api/metrics.py:56 | the else branch stores into `response`, which that branch never assigns | any poll whose connectivity guard is false raises UnboundLocalError (a NameError) | start the branch with `response = {}` and return the status-0 response | high; not executed | `Poll.FalseGuardReadsUnbound` | `Poll.GetAllMetricsIntended` |
