# mcim statistics module — verified model

This project models the selection and formatting layer of the `mcim` bot
module. The module reports the statistics of a file-mirror cluster: a ranked
list of nodes, each with its hits, bytes served, status and sponsor, and a
daily report with hourly series. The model covers these parts:

- `utils.py`: byte-size conversion, keyword search over the node list, and the
  label and message builders: rank tier, status, size class, proxy flag,
  uptime split, cluster detail, cache and data-source lines.
- `__init__.py`: the handlers `rank`, `online`, `banned`, `top`, `search` and
  `yesterday`, and the scheduled trigger `notify` that calls `yesterday`.
- `draw.py`: the byte-to-gigabyte conversion. Charts are abstract requests.

Fetched JSON is an input record (`Records`). A field that may be missing is an
`Option`. What a handler sends is an output value: `Handlers.Outcome` lists the
messages in order, each with its destination (a reply, or a post to the
`mcim_rss` channel). It also records the exception that ended the handler, if
any. `msg.finish` ends the handler.

Locale catalog lookups are uninterpreted terms `I18n.Tr(lang, key, args)`, so
every property says which template key is used and with which arguments.
Python's `str(int)` is `I18n.Decimal`, and it has a proved parse round trip.

Modules, one per file: `Wrappers` (Option, Result), `I18n` (catalog terms,
decimal rendering), `Records` (the JSON schemas and the exceptions), `Utils`
(`utils.py`), `Draw` (`draw.py`), `Handlers` (`__init__.py`).

The entry lines of the daily ranking always use the zh_cn locale, because
the source does not pass the session locale on to `generate_list`. The two
`append` calls of `generate_cluster` are modelled as its returned list of two
blocks; no loop is involved.

Where the code and the written design disagree, the model follows the code:

- A negative byte count stays in unit B. It is not rejected as invalid.
- A count of 1024^6 bytes or more gives `None`. It does not saturate at PB.
- `search` raises when a key's field is missing from a node, unless an earlier
  key of that node already matched. Missing fields are not skipped.

## Model

| member | source | states |
|---|---|---|
| Utils.HumanSizeSpec | utils.py:13-18 | a unit is chosen iff value < 1024^6; it is the least unit i with value < 1024^(i+1), and the shown amount times 1024^i is the value |
| Utils.SizeConvert | utils.py:7-18 | the dividing loop with early return computes exactly HumanSize: the least fitting unit and the scaled amount, or None past PB |
| Utils.UnitMonotone | utils.py:15-18 | a larger byte count never gets a smaller unit, and a count that gets a unit gives one to every smaller count |
| Utils.BelowKilobyte | utils.py:15-17 | any value below 1024, including 0 and negative values, stays in B unscaled |
| Utils.SizeExamples | utils.py:15-18 | 0 is 0 B, 1536 is 1.5 KB, 1024^5 is 1 PB, and 1024^6 gives None instead of a saturated PB |
| Utils.KeyScan | utils.py:32-35 | a match means some key's field is present and matches the pattern; a raise means some key's field is missing; with all fields present the node matches iff some key matches |
| Utils.KeyScanOrder | utils.py:32-35 | the node matches iff the first key that decides it (every earlier key's field present and not matching) matches; the scan raises iff that first deciding key's field is missing |
| Utils.MatchShieldsMissing | utils.py:32-35 | with keys clusterName then sponsor, a matching name makes the scan report a match even though sponsor is null; tried the other way round, the null sponsor raises first |
| Utils.Search | utils.py:20-37 | the nested loop with break returns the SearchResult specification; an invalid pattern raises a pattern error |
| Utils.SearchOrdered | utils.py:31-34 | every pair is (k, nodes[k-1]) with k between 1 and the number of nodes, and ranks strictly increase, so no node appears twice |
| Utils.SearchSucceeds | utils.py:31-35 | search succeeds iff the key scan of every node finishes without hitting a missing field |
| Utils.SearchMembership | utils.py:31-35 | the node at 1-based rank k is listed iff its key scan reports a match |
| Utils.SearchRaisesByKeyOrder | utils.py:31-35 | search over the whole list raises iff some node reaches a key with a missing field before any of its keys matched |
| Utils.SearchListsByKeyOrder | utils.py:31-35 | when search succeeds, the node at rank k+1 is listed iff the first of its keys that decides it matches |
| Utils.StatusOf | utils.py:49 | online if isOnline, otherwise banned if isBanned, otherwise offline; exactly one status holds, also in the detail view at utils.py:150 |
| Utils.RankLabel | utils.py:59-67 | ranks 1, 2 and 3 give gold, silver and bronze (each iff); any other rank gives its decimal text; a missing rank gives "None" |
| Utils.RankLabelInjective | utils.py:59-67 | two ranks that get the same label term (the same medal lookup or the same literal) are equal; whether two catalog texts render alike is not modelled |
| I18n.DecimalRoundTrip | utils.py:67 | the decimal text of any integer, negatives included, parses back to that integer |
| I18n.DecimalInjective | utils.py:67 | distinct integers have distinct decimal texts |
| Utils.GenerateList | utils.py:39-86 | a leaderboard line is produced iff the node's byte count is present (size_convert raises on a missing one) |
| Utils.YesterdayEntry | utils.py:69-76 | a daily-ranking line uses the yesterday template in the given locale, with the rank tier, the node's name, hits, converted byte size and owner, and no status, size-class or version argument |
| Utils.LiveEntry | utils.py:48-86 | a live line is the top template in the given locale with the rank tier, the status label, the size-class label, the node's name, version and hits and the converted byte size, then a newline, then the owner template |
| Utils.UptimeOf | utils.py:101-105 | hours < 24, minutes < 60 and seconds < 60, and days, hours, minutes and seconds add up to the whole seconds elapsed |
| Utils.GenerateDashboard | utils.py:88-118 | the status line exists iff today's record, today's bytes, the total size and the start time are present; it is the status template in the given locale with the online count, today's hits and both sizes converted |
| Utils.DashboardCounts | utils.py:97-98 | the source and file counts on the status line are passed through as fetched |
| Utils.DashboardUptime | utils.py:101-117 | the running days, hours, minutes and seconds shown are the uptime split of the time since the start |
| Utils.GenerateCache | utils.py:120-139 | the cache line exists iff every subscripted group and counter key is present; each of the seven counters is passed through under its own argument, a JSON null as None |
| Utils.CacheNullCounter | utils.py:127-138 | a null counter still gives the cache line and shows as None, while the same counter absent makes the subscript raise |
| Utils.GenerateCluster | utils.py:141-162 | two blocks exist iff bytes, creation time and down time are present: the first is one status line with the node's name, detail status, hits, converted bytes and bandwidth; the second holds three lines |
| Utils.ClusterDetail | utils.py:164-185 | the second block opens with the detail line in the given locale: the node's id, size class, proxy label, master stat and version |
| Utils.ClusterTimes | utils.py:169-170 | the detail line shows the creation and down times as the millisecond fields divided by 1000 |
| Utils.ClusterContacts | utils.py:172-187 | the second block closes with the owner line and then the sponsor line with sponsor and sponsor URL |
| Utils.GenerateSource | utils.py:191-207 | the source line is the source template in the given locale with yes iff the source is from a plugin, along with name, count and last update |
| Draw.Byte2GB | draw.py:9-10 | same length as the input, and each element times 1024^3 is the input element |
| Handlers.LeadingRun | __init__.py:71-73 | the prefix length stops at the first element failing the test, and every earlier element passes it |
| Handlers.UntilNone | __init__.py:105-109 | the collected lines are the formatted entries before the first one whose formatting raises |
| Handlers.ListingShape | __init__.py:119-125 | a listing is one reply with one line per pair, in order, each with the pair's own rank; or the empty message when there are none; or it raises and sends nothing when a node cannot be formatted |
| Handlers.Rank | __init__.py:49-64 | the reply is the invalid message iff rank < 1 or rank > the number of nodes; otherwise it is the two detail blocks of nodes[rank-1] and its banner |
| Handlers.Online | __init__.py:66-79 | the listing of the longest prefix of online nodes, each with its 1-based position |
| Handlers.Banned | __init__.py:81-93 | the listing of the banned nodes selected by BannedUpTo |
| Handlers.BannedUpTo | __init__.py:85-88 | the selected pairs are (k, nodes[k-1]) with banned nodes only, in strictly increasing rank order |
| Handlers.BannedMembership | __init__.py:86-88 | the node at rank k is selected iff it is banned |
| Handlers.RankCommand | __init__.py:49-53 | with no number given the rank is 1: the first node's detail view, and the invalid message exactly for an empty list; a given number behaves as Handlers.Rank |
| Handlers.TopCommand | __init__.py:96-100 | with no number given the count is 10: fewer than ten nodes give the invalid message, otherwise the first ten lines up to the first raise; a given number behaves as Handlers.Top |
| Handlers.Top | __init__.py:96-111 | an out-of-range count gives the invalid message; otherwise the formatted entries 1..k, where k stops before the first entry whose formatting raises |
| Handlers.TopIsPrefix | __init__.py:105-109 | at most n lines, and the top-n output is a prefix of the top output over the whole list |
| Handlers.Search | __init__.py:113-125 | a search error is raised unchanged; otherwise the listing of the pairs returned by Utils.Search, in their order |
| Handlers.SummaryLines | __init__.py:150-164 | the text phase is the headline followed by the daily entries, or the single failure message |
| Handlers.TextPhaseSummary | __init__.py:154-161 | after a successful fetch and summary: the totals line first, then one line per ranked entry, in order, each with the entry's own rank field |
| Handlers.TextPhaseFailure | __init__.py:163-164 | when the fetch or the formatting raises, the text output is exactly one failure message |
| Handlers.RunReport | __init__.py:148-198 | the text is sent first; then the charts are sent to the same destination, or the handler ends with the exception raised on the way |
| Handlers.Yesterday | __init__.py:137-198 | an interactive call replies in the session's locale with its --full flag; a call without a session posts to mcim_rss in zh_cn with full unbound |
| Handlers.ReportDestination | __init__.py:166-169 | a report run sends one or two messages, all to the same destination, and the first holds only text lines |
| Handlers.FetchFailure | __init__.py:163-173 | a failed fetch sends exactly the failure message and then raises UnboundLocalError on `yesterday`, so no chart is sent |
| Handlers.ChartSelection | __init__.py:179-193 | full mode requests three charts in order: hits, bytes in GB, rejected; otherwise exactly one combined hits/bytes chart |
| Handlers.Notify | __init__.py:208-210 | the scheduled trigger as written: one post to mcim_rss, then an exception, so no chart is ever posted |
| Handlers.NotifyFull | __init__.py:208-210 | the scheduled trigger with full mode bound: after a fetch with a byte series it posts the text and then three charts to mcim_rss |

## Left out

- HTTP retrieval (`get_url`) is not modelled. The fetched JSON is a parameter, and a failed fetch is `None`.
- Sending is not modelled either: message sending, `post_message` and `finish` are output values in `Handlers.Outcome`.
- The cron scheduler is left out. `notify` is modelled as a call with no session.
- The log line the scheduled path writes (`Logger.info`) is not modelled, since logging changes nothing the handler sends.
- Locale catalog lookups are uninterpreted terms, and so is `ts2strftime` (`I18n.Val.Time`). The catalog texts are not modelled.
- `datetime.now()` and `fromtimestamp` are left out. The dashboard takes the current time in microseconds as a parameter.
- Utils.UptimeOf: models the days/seconds split of a timedelta and the divmod decomposition over whole microseconds. It does not model time zones or the float in `startTime / 1000`.
- Utils.HumanSizeSpec: models the unit choice and the scaled amount over reals. It does not model binary float rounding or the two-decimal rendering.
- Utils.KeyScan: the regex engine is an abstract match predicate, and case-insensitivity is part of that predicate. A compile error is `Pattern.Invalid`.
- A field that is present but holds a non-string value is modelled as missing, in both search and labels.
- Rendering in draw.py (matplotlib, fonts, cache file paths) is not modelled.
- The handler calls `draw.single_figure` and `draw.complex_figure`, which draw.py does not define. Charts are modelled as the requested `Draw.Chart` values, not as the AttributeError those calls would raise.
- The `status` and `source` handlers, and the `mcim_cluster_rss` module, are not modelled. The builders they call (`generate_dashboard`, `generate_cache`, `generate_source`) are.
- The image transport is not modelled. In `rank`, a missing sponsor banner stands for the failing `Image` send that switches to the banner-failed message.

## Findings

| source | as written | input that shows it | evidently intended | confidence | as-written member | corrected member |
|---|---|---|---|---|---|---|
| __init__.py:139-146, 179, 208-210 | on the scheduled path (`msg is None`) the local `full` is never bound, so `if full:` raises after the text is posted and no chart is ever posted | any scheduled run, e.g. a successful fetch with a byte series | the scheduled report posts its charts to mcim_rss as well, with `full` bound | not executed | Handlers.Notify | Handlers.NotifyFull |
