# megaport-datadog: the collect-and-publish pipeline, in Dafny

The repository is one AWS Lambda handler, `lambda_handler`. It logs in to the
Megaport API and lists the account's products. Then, for each product, it fetches
the last 30 minutes of bandwidth telemetry, splits the samples into inbound and
outbound series, converts their timestamps from milliseconds to seconds, and
sends both series to Datadog as two metric submissions.

This project models that pipeline with every network call turned into a value:

- The provider's answers are inputs:
  - the login response (`Bridge.LoginResponse`);
  - the product listing (`seq<ProductMap.Product>`);
  - the telemetry endpoint, as a function from product uid and window to records (`Bridge.TelemetrySource`).
- The wall clock is the integer parameter `nowMs`.
- The metric prefix is a string parameter.
- An invocation yields its exit status and the ordered trace of calls it makes (`Bridge.Run`):
  - the login POST;
  - the products GET;
  - one telemetry GET per product, with its window;
  - one `api.Metric.send` per series, with its metric name, points and tags.

Modules, following the handler's stages:

- `Telemetry` (`telemetry.dfy`): samples and records, and the millisecond-to-second
  conversion `int(ms / 1000)`. `Series` specifies the inbound and outbound series.
  `Classify` is the source's nested append loops, proved to build exactly those series.
- `ProductMap` (`product_map.dfy`): the `product_metrics` dictionary.
  - It is an insertion-ordered map (`OrderedMap`), because the handler relies on
    Python 3.7 dictionaries iterating in insertion order.
  - `Put` models `dict.update` on one key.
  - `ProductMapOf` specifies the dictionary the listing loop leaves behind.
  - `BuildProductMap` is that loop.
- `Publish` (`publish.dfy`): the `key:value` tags and the two metric names. A tag
  parser is the partner that proves the tags carry the product's name and uid exactly.
- `Bridge` (`bridge.dfy`): the login gate and the shared window.
  - The per-product plan (fetch, send in, send out) is specified by `Invocation`.
  - `Handle` is the handler's loop, proved to produce that trace.
  - Lemmas state the auth gate, the call layout, the shared window, the count of
    submissions and the tags.
- `Wrappers` (`wrappers.dfy`): `Option`.

The handler model follows the code everywhere except at the login step:

- `Bridge.Invocation` and `Bridge.Handle` use the corrected login gate
  `Bridge.LoginOutcome`, under which every failure to obtain a token ends with exit
  status 1. When the login POST itself raises, the code as written dies with an
  uncaught `UnboundLocalError` instead. That behaviour is modelled separately by
  `Bridge.LoginGateAsWritten`; see "## Findings".
- The value the code names `epoch_to` is `now - 1800000`, the window START, passed as
  `from` in the telemetry URL (lambda_function.py:81, 92). Only the name is misleading;
  the model calls it `windowStart` and records it as `fromMs`.

## Model

| member | source | states |
|---|---|---|
| Telemetry.ToSeconds | lambda_function.py:105 | `int(ms/1000)` truncates toward zero: for `ms >= 0` the result `s` satisfies `s*1000 <= ms < s*1000 + 1000`, and for negative `ms` it is the symmetric bound on the other side of zero |
| Telemetry.ToSecondsIsFloor | lambda_function.py:105 | on non-negative timestamps the conversion is floor division by 1000 |
| Telemetry.ToSecondsOfWholeSeconds | lambda_function.py:105 | a whole number of seconds expressed in milliseconds converts back to exactly that number of seconds |
| Telemetry.Classify | lambda_function.py:95-110 | the nested append loops produce exactly `Series(records, "In")` and `Series(records, "Out")` |
| Telemetry.SeriesLength | lambda_function.py:100-108 | a series has as many points as the records of its subtype have samples (the sum of their sample counts) |
| Telemetry.SeriesAppend | lambda_function.py:100-110 | the series of a concatenation of record lists is the concatenation of their series |
| Telemetry.SeriesAt | lambda_function.py:100-108 | sample `j` of an "In" (or "Out") record `i` appears in that series at position (samples of earlier records of that subtype) + `j`, with its timestamp converted to seconds and its value unchanged |
| Telemetry.SeriesFrom | lambda_function.py:100-108 | conversely, every point of a series is such a converted sample of a record of that subtype, at that position |
| Telemetry.SeriesKeepsOrder | lambda_function.py:100-108 | of two samples of a subtype, the one that comes earlier (earlier record, or same record and earlier sample) appears converted at an earlier position of that subtype's series than the other, which appears converted there too |
| Telemetry.OtherSubtypeIgnored | lambda_function.py:109-110 | removing a record whose subtype is neither "In" nor "Out" changes neither series |
| Telemetry.RecordIgnored | lambda_function.py:100-110 | removing a record of another subtype leaves a series unchanged |
| Telemetry.ClassifyExample | lambda_function.py:100-108 | records In `[[1000,5]]`, Out `[[2000,7]]`, Foo `[[3000,9]]` give in-series `[(1,5)]` and out-series `[(2,7)]` |
| ProductMap.OrderedMap.Put | lambda_function.py:76 | `dict.update` on one key: the key maps to the new value, other keys keep their values, a new key is appended to the iteration order, an existing key keeps its position, and the no-duplicate invariant is kept |
| ProductMap.ProductMapOf | lambda_function.py:72-76 | the dictionary built from the listing has no duplicate keys and its key order matches its key set |
| ProductMap.BuildProductMap | lambda_function.py:72-76 | the listing loop builds exactly `ProductMapOf(listing)` |
| ProductMap.ProductMapKeys | lambda_function.py:75-76 | a uid is a key of the dictionary (and of its iteration order) if and only if some listing entry carries it |
| ProductMap.ProductMapName | lambda_function.py:75-76 | the name stored for a uid is that of the last listing entry carrying it |
| ProductMap.ProductMapOrder | lambda_function.py:75-84 | iteration order is the order in which uids first appear in the listing |
| ProductMap.ProductCount | lambda_function.py:75-76 | the dictionary has exactly as many entries as the listing has distinct uids |
| Publish.ParseTag | lambda_function.py:86-88 | a parsed tag has a key without `:`, and key and value rebuild the tag |
| Publish.ParseTagRoundTrip | lambda_function.py:86-88 | a tag built from a key without `:` parses back to that key and value |
| Publish.TagsIdentifyProduct | lambda_function.py:86-88 | the tag list has three tags: `source:megaport_datadog.py`, then one giving back the product name, then one giving back the uid |
| Publish.MetricNamesDistinct | lambda_function.py:117-125 | the `mbps_in` and `mbps_out` names never coincide, and each name determines its prefix |
| Publish.PublishExample | lambda_function.py:86-88 | product "p1" named "A" under prefix "megaport" gets tags `source:megaport_datadog.py`, `product_name:A`, `product_uid:p1` and metrics `megaport.bandwidth.mbps_in` / `_out` |
| Bridge.LoginOutcome | lambda_function.py:59-64 | the invocation proceeds if and only if the login response has a token, proceeds with that token, and otherwise exits with status 1 |
| Bridge.LoginFinding | lambda_function.py:59-64 | as written, a login request that raises ends in an uncaught exception where exit status 1 was intended; on every other response the two agree |
| Bridge.SessionAt | lambda_function.py:79-81 | the window ends at `nowMs` and is exactly 1800000 ms long |
| Bridge.Handle | lambda_function.py:59-128 | the handler yields exactly `Invocation(...)`: exit status and full call trace; at the login step it follows the corrected gate `LoginOutcome` (a login request that raises gives exit status 1), not the uncaught exception of the code as written (see "## Findings") |
| Bridge.AuthGate | lambda_function.py:59-64 | status 1 exactly when there is no token, and then the only call is the login; otherwise status 0, and the products are listed with the token |
| Bridge.PlanShape | lambda_function.py:84-128 | the plan has three calls per product, and positions `3i..3i+3` are product `i`'s calls |
| Bridge.PlanAt | lambda_function.py:86-128 | product `i`'s calls are: the fetch over the session window, then `mbps_in` with its in-series, then `mbps_out` with its out-series, both with its tags |
| Bridge.PublishCalls | lambda_function.py:84-128 | with a token, after login and listing come 3 calls per product in iteration order: fetch with the shared window, send `<prefix>.bandwidth.mbps_in` with the "In" series, send `<prefix>.bandwidth.mbps_out` with the "Out" series, both tagged with that product's name and uid |
| Bridge.PlanFetches | lambda_function.py:92 | every fetch of a plan uses the session's token and window |
| Bridge.SharedWindow | lambda_function.py:79-92 | every telemetry request of an invocation has `to == nowMs` and `to - from == 1800000`, and carries the login token |
| Bridge.PlanSends | lambda_function.py:116-128 | a plan for N products holds exactly 2N submissions |
| Bridge.PublishCount | lambda_function.py:84-128 | an invocation makes exactly two submissions per distinct product uid of the listing, and none without a token |
| Bridge.VisitedProducts | lambda_function.py:75-86 | every product the loop visits is a listing entry with no later entry of the same uid |
| Bridge.PlanSendTags | lambda_function.py:86-128 | every submission of a plan carries the tags of one of its products |
| Bridge.SubmissionTags | lambda_function.py:86-88 | every submission is tagged with the uid of a listing entry and the name of the last entry with that uid |
| Bridge.Example | lambda_function.py:59-128 | one product "p1"/"A" whose telemetry holds In, Out and Foo records yields login, listing, one fetch over `[now-1800000, now]`, then `megaport.bandwidth.mbps_in` with `[(1,5)]` and `megaport.bandwidth.mbps_out` with `[(2,7)]` |

## Left out

- HTTP transport: the `MegaportAPI` class (lambda_function.py:23-33) and the URL strings (lines 56, 68, 92). These are foreign calls, so the model takes the parsed responses as inputs and records each request as a trace entry. The login entry carries no credentials. The telemetry URL's second `token` parameter is not modelled.
- Datadog: `initialize` and the API key (lines 48-52) are not modelled. Each `api.Metric.send` is modelled only as its trace entry (metric, points, tags). The source ignores the outcome of a send, so the model does not observe it either.
- `argparse`, environment variables and `logging` (lines 20, 37-42, 55, 63, 67, 90-91, 113-114, 122, 130) are configuration and output plumbing. The `print(r.text)` output at line 63 is not modelled. The prefix is a plain string parameter, and the handler's return value (the result of `logging.info`, i.e. `None`) is not modelled.
- `time.time()` (line 79) is the wall clock. It becomes the integer parameter `nowMs`, so the float-to-int truncation of `time.time() * 1000` is not modelled.
- Telemetry.ToSeconds: models `int(s[0]/1000)` as exact truncating integer division. Python divides in floating point first. The two agree for every timestamp of magnitude below 10^15 ms, which covers any realistic epoch, but floating-point rounding beyond that is not modelled.
- Sample values `s[1]` are an opaque type parameter and are passed through unchanged.
- Malformed JSON (the `KeyError`/`TypeError` at lines 61, 69, 93 and 101-108 on responses missing fields) is not modelled. Those are uncaught runtime faults, so the listing and telemetry inputs are well-typed records. A login response that cannot be parsed counts as a response without a token, which is what the `except` at line 62 does.
- The `raw_data` copy stored into each dictionary entry (line 95) is not modelled, because nothing reads it. The in and out sample lists that line 95 creates on the entry are the local `mbpsIn`/`mbpsOut` of the loop.
- The unused imports `mean` and `pprint` (lines 10-11) and the ignored `event`/`context` arguments are not modelled.
- Bridge.Handle: uses the corrected login gate, so the uncaught `UnboundLocalError` of a login POST that raises (lines 60-63) is not part of the handler trace; it is modelled by `Bridge.LoginGateAsWritten` (see "## Findings").
- Bridge.TelemetrySource: the telemetry endpoint is a fixed function of (uid, from, to). Within one invocation each product is fetched exactly once, so this loses nothing the handler can observe.

## Findings

| source | as written | input that shows it | evidently intended | confidence | as-written member | corrected member |
|---|---|---|---|---|---|---|
| lambda_function.py:59-64 | the `except` branch prints `r.text`, but `r` is bound only if `mp_client.post` returned | the login POST raises (DNS failure, connection refused, timeout): `print(r.text)` raises `UnboundLocalError`, and the invocation ends with an uncaught exception instead of `exit(1)` | every login failure ends the invocation with exit status 1 | high; not executed | Bridge.LoginGateAsWritten (discrepancy shown by Bridge.LoginFinding) | Bridge.LoginOutcome (used by Bridge.Invocation and Bridge.Handle; its contract is stated by Bridge.AuthGate) |
