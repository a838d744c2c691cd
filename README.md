# Netskope client log parser — verified model of the parsing core

This project is a Dafny model of the two functions in `parser_utils.py` that do the
work of the Netskope client log viewer:

- `parse_log_lines` reads the lines of an `nsdebuglog` file in one pass. For each line it
  reads the optional leading timestamp `YYYY/MM/DD HH:MM:SS[.f…]` (first with the
  fractional-seconds format, then without). A line whose timestamp-shaped start cannot be
  read is dropped. Every other line goes through a series of independent tests:
  - tunnelled flows, or else bypassed flows;
  - PoP establishment lines;
  - RTT probes;
  - errors and warnings;
  - the gateway being connected to;
  - steering notices;
  - the tenant URL;
  - the STA user agent.

  Each test either appends a row to a table or overwrites a field. Rows go into a table
  only when the line has a timestamp.
- `filter_by_minutes` finds the latest timestamp across the five timestamped tables. It
  keeps only the rows no older than `minutes` minutes before that timestamp.

The model is laid out as follows:

- `text.dfy`: character classes, ASCII lower-casing and Python's `str.strip()`.
- `scan.dfy`: the ten regular expressions as dedicated scanners with `re.search` semantics.
  Each finds the leftmost match and backtracks through its `\s*` prefix where the pattern
  does.
- `timestamp.dfy`: the timestamp prefix and the two `strptime` formats. Instants are
  counted in microseconds since 0001-01-01.
- `records.dfy`: the row types.
- `log_parser.dfy`: the single pass as a method with a loop, proved against one
  specification function per result category.
- `time_filter.dfy`: the window filter as functions, with lemmas about it.

Behaviour of the code that a reader might not expect:

- A line without any timestamp is still examined. It adds no row to the five timestamped
  tables, but it can set the last gateway, add a steering notice and set header fields.
- The tenant and user-agent fields are overwritten by every matching line (last match
  wins), not set once.
- The tests are independent `if`s, not first-match-wins. Only tunnel and bypass form an
  `if`/`elif` pair.
- A bypass-manager line gives a row only when it also has a `Dest IP:` field
  (parser_utils.py:41); the process alone is optional.
- The error test looks for " error " and " warn " with a space on both sides, so a line
  whose only keyword is " warning " gives no error row (parser_utils.py:57).
- The gateway name runs to the next colon and may contain spaces.
- The tenant is everything after `url:https://addon-` up to the end of the line: the slug,
  the first dot and the rest, stripped. For `url:https://addon-acme.goskope.com/x` it is
  `acme.goskope.com/x`.
- With no timestamp anywhere, the filter returns an empty PoP list instead of the PoP list
  it was given. The model proves the two are the same, because such a PoP list is always
  empty (`TimeFilter.FilterByMinutes`).

The scanners in `scan.dfy` come in threes. A function computes the match, with a small
contract on the shape of the groups. A `...Sound` lemma says how the text is laid out
whenever it matches. A `...Is` or `...Complete` lemma says that every such layout makes it
match, and gives the groups it returns. `log_samples.dfy` proves what the classifier gives for one
sample line per rule.

## Model

| member | source | states |
|---|---|---|
| Text.Lower | parser_utils.py:29 | `line.lower()` keeps the length and lower-cases each ASCII capital, leaving every other character as is |
| Text.Span | parser_utils.py:31 | a greedy repetition of a character class: every character of the run is in the class, and the run stops at the end or at the first character outside it |
| Text.IndexOf | parser_utils.py:78 | the first `;` in a range, which is where a lazy `(.*?);` group ends; none when the range holds no `;` |
| Text.Strip | parser_utils.py:34 | `str.strip()`: the result sits in the input with only whitespace before and after it, and neither starts nor ends with whitespace |
| Text.StripUnique | parser_utils.py:34 | those two properties determine the stripped text: any framed text without whitespace at its ends is `Strip` of the input |
| Text.StripIdempotent | parser_utils.py:34 | stripping a stripped field changes nothing |
| Text.StripWithin | parser_utils.py:34 | stripping adds no character |
| Text.StripKeepsChar | parser_utils.py:74 | stripping keeps every character that is not whitespace |
| Text.NatOf | parser_utils.py:54 | `int()` of an n-digit string is below 10^n |
| Text.LowerSlice | parser_utils.py:62 | lower-casing a slice gives that slice of the lower-cased line, so a case-insensitive literal can be checked in place |
| Scan.LastFrom | parser_utils.py:31 | how far a `\s*` that must be given back goes: an index in the range that satisfies the test |
| Scan.LastFromSound | parser_utils.py:31 | the index found is the largest that satisfies the test, and none is found only when no index in the range does: the spaces are given back one at a time, from the right |
| Scan.BlankAll | parser_utils.py:31 | a place where `\s*` may stop is exactly one reached over whitespace only |
| Scan.Token | parser_utils.py:31 | the group of `\s*([^\s,]+)` and its variants is non-empty and made only of characters of its class |
| Scan.TokenLaidAt | parser_utils.py:31 | `Token` captures at the place where the spaces stop, as chosen by `LastFrom` |
| Scan.TokenSound | parser_utils.py:31 | a capture is the whole greedy run of the class starting where the spaces stop, and no later stopping place starts a run; no capture means no stopping place starts one |
| Scan.TokenFound | parser_utils.py:31 | whenever spaces and then a run of the class follow, the pattern matches |
| Scan.TokenIs | parser_utils.py:31-32 | for `[^\s,]+` the layout fixes the capture: the run after the spaces is exactly what is returned |
| Scan.TokenAfterSpaces | parser_utils.py:39 | a run that starts right after all the spaces is captured whole |
| Scan.LazyEnd | parser_utils.py:30 | the lazy `(.*?)(?:,\| to host:)` stops at the first `,` or ` to host:`, and no line feed comes before that point |
| Scan.LazyEndFinds | parser_utils.py:30 | the converse: a `,` or ` to host:` with no line feed before it is found, there or earlier |
| Scan.LazyField | parser_utils.py:30 | the tunnel process group holds no line feed |
| Scan.ProcessSound | parser_utils.py:30 | the process group follows the spaces and is ended by `,` or ` to host:`; among all such layouts it has the latest start (the spaces are given back only as needed) and, at that start, the shortest field |
| Scan.ProcessComplete | parser_utils.py:30 | every such layout makes the tunnel process pattern match |
| Scan.ProcessIs | parser_utils.py:30 | a field right after all the spaces, with no terminator inside it, is exactly the group returned |
| Scan.AddrKey | parser_utils.py:32 | where `addr:` sits after the host run, the comma and the spaces |
| Scan.HostSound | parser_utils.py:32 | `addr:` is found only after spaces, the greedy host run, a comma and spaces |
| Scan.HostIs | parser_utils.py:32 | that layout fixes where `addr:` is found |
| Scan.AddrAfterHost | parser_utils.py:32 | the destination address group is a non-empty run without whitespace or commas |
| Scan.AddrSound | parser_utils.py:32 | the address returned is the run after `host:`, spaces, a host run, `,`, spaces, `addr:` and spaces |
| Scan.AddrIs | parser_utils.py:32 | every such layout makes the pattern match and return exactly that address |
| Scan.SpacedRun | parser_utils.py:52 | `\s+key` then a class character: the run starts after the literal |
| Scan.SpacedRunSound | parser_utils.py:52 | what is found is at least one space, the literal, then the greedy run |
| Scan.SpacedRunIs | parser_utils.py:52 | such a layout fixes where the run starts and what it is |
| Scan.RttAt | parser_utils.py:52 | the PoP and IP groups are non-empty runs without whitespace, and the RTT group is a non-empty run of digits |
| Scan.RttSound | parser_utils.py:52 | group 1 is the run right after `pop:`, group 2 the run after spaces and `ip:`, group 3 the digits after spaces and `rtt:` |
| Scan.RttIs | parser_utils.py:52 | every such layout makes the pattern match and return exactly those three runs, in that order |
| Scan.GatewayAt | parser_utils.py:62 | the gateway group starts with `gateway-` in any case and continues with a non-empty run without colons |
| Scan.GatewaySound | parser_utils.py:62 | the name returned sits right after `connecting to ` and runs up to the next `:` or the end of the line |
| Scan.GatewayIs | parser_utils.py:62 | every such layout makes the pattern match and return exactly that name |
| Scan.TenantAt | parser_utils.py:72 | the tenant group contains the dot the pattern requires |
| Scan.TenantSound | parser_utils.py:72 | the tenant returned runs from right after `addon-` through the first dot to the end of the line, with at least one character on each side of the dot |
| Scan.TenantIs | parser_utils.py:72 | every such layout makes the pattern match and return exactly that text |
| Scan.AgentAt | parser_utils.py:78 | for one end of the spaces: three fields, the first two without `;` and the last without a line feed |
| Scan.AgentAtSound | parser_utils.py:78 | the fields are split at the first two `;` and the third reaches the end of the text or its final line feed; no match exactly when the line does not reach that end or holds fewer than two `;` |
| Scan.AgentIs | parser_utils.py:78 | every such layout makes the fields match and gives exactly those fields |
| Scan.AgentField | parser_utils.py:78 | the first two user-agent groups hold no `;`, whichever number of spaces is given back |
| Scan.AgentSound | parser_utils.py:78 | the fields follow the spaces as the pattern lays them out, at the latest start that has such a layout |
| Scan.AgentAfterSpaces | parser_utils.py:78 | fields that start right after all the spaces are the capture |
| Scan.AgentComplete | parser_utils.py:78 | every layout after some of the spaces makes the pattern match |
| Scan.Attempt | parser_utils.py:30-78 | whatever any of the ten patterns captures after its literal has the pattern's group count and group make-up |
| Scan.AttemptSound | parser_utils.py:30-78 | a capture after the literal is laid out as the pattern says |
| Scan.AttemptComplete | parser_utils.py:30-78 | every layout the pattern allows makes it match, with exactly those groups where nothing is given back |
| Scan.MatchAt | parser_utils.py:30-78 | a match at a position (literal, in any case where the flag says so, then the rest) has the pattern's group make-up |
| Scan.MatchSound | parser_utils.py:30-78 | a match at a position has the pattern's literal there and the layout after it |
| Scan.MatchComplete | parser_utils.py:30-78 | the literal and a layout after it make the pattern match there, with those groups where nothing is given back |
| Scan.NoRoomNoMatch | parser_utils.py:30-78 | nothing matches where the literal does not fit |
| Scan.SearchFrom | parser_utils.py:30-78 | the match found from position k on is a match at a position ≥ k |
| Scan.SearchFromFinds | parser_utils.py:30-78 | the first match from position k on is the one found |
| Scan.Search | parser_utils.py:30-78 | `re.search`: a match found is a genuine match at its position with the pattern's group make-up |
| Scan.SearchLeftmost | parser_utils.py:30-78 | `re.search` returns the leftmost match: none starts before it, and none exists anywhere when it finds none |
| Scan.SearchSound | parser_utils.py:30-78 | the match found has the literal at its position and the pattern's layout after it |
| Scan.SearchFinds | parser_utils.py:30-78 | a match with none before it is the one `re.search` returns |
| Scan.SearchMisses | parser_utils.py:30-78 | with no match anywhere, `re.search` finds none |
| Scan.StripAllIn | parser_utils.py:34 | stripping a group made of one character class leaves a string of that class |
| Scan.GatewayShape | parser_utils.py:62 | a gateway match is longer than `gateway-`, starts with it in any case and has no colon after it |
| Scan.TenantShape | parser_utils.py:72-74 | the dot of a tenant match survives stripping |
| Scan.AgentShape | parser_utils.py:78-81 | the stripped OS and client version fields hold no `;` |
| Timestamp.MatchPrefix | parser_utils.py:17 | the timestamp-shaped start yields digit fields (a year below 10000) and a run of fraction digits |
| Timestamp.WithFraction | parser_utils.py:21 | the `.%f` format accepts 1 to 6 fraction digits and gives a valid calendar date and clock time |
| Timestamp.WithoutFraction | parser_utils.py:24 | the format without fraction accepts no fraction and gives a valid date and time |
| Timestamp.LineStampCases | parser_utils.py:17-26 | no timestamp exactly when the prefix does not match; a dropped line exactly when a field is out of range or there are more than six fraction digits; otherwise the instant of the valid date-time with those fields, the fraction scaled to microseconds |
| Timestamp.ToMicrosOrder | parser_utils.py:108-115 | instants compare exactly as the date-times they stand for (lexicographic on the seven fields), so `max` and `>= cutoff` on them are the date-time comparisons |
| Timestamp.MatchFormatted | parser_utils.py:17 | a written date-time followed by a non-digit matches the prefix with its own fields and six fraction digits |
| Timestamp.ReadFormatted | parser_utils.py:17-21 | a date-time written with six fraction digits and followed by any non-digit text reads back as its own instant |
| Timestamp.MatchWithoutFraction | parser_utils.py:17 | a line starting with the first 19 characters of a written date-time and no `.` after them matches with those fields and no fraction |
| Timestamp.StampWithoutFraction | parser_utils.py:21-24 | such a prefix, from a date-time with no microseconds, falls back to the second format and reads as that instant |
| Timestamp.ReadWithoutFraction | parser_utils.py:17-24 | a date-time written without a fraction, not followed by `.`, reads back as its own instant |
| Timestamp.MatchWritten | parser_utils.py:17 | any fields that fit the pattern's digit widths, in calendar range or not, written with zero padding and an optional `.` and fraction, match the prefix as exactly those fields |
| Timestamp.InvalidFieldsDropped | parser_utils.py:17-26 | such a written prefix whose date or clock is out of range (30 February, month 13, hour 24) leaves an unreadable stamp, so the line is dropped |
| Timestamp.FractionText | parser_utils.py:17 | a matched fraction is the run of digits after a `.` at index 19 |
| Timestamp.PrefixRead | parser_utils.py:17-21 | a matched prefix with valid fields is the written form of its date-time: the first 19 characters agree, and the fraction digits padded to six are the written microseconds |
| Timestamp.StampRead | parser_utils.py:17-26 | the converse of `ReadFormatted`: a stamped line starts with the written form of a valid date-time that has its instant, fraction digits included |
| LogParser.TunnelRule | parser_utils.py:29-34 | a tunnelling line appends its row exactly when it is stamped and the process, host and address are all found |
| LogParser.BypassRule | parser_utils.py:37-43 | a bypass-manager line appends its row when stamped with host and IP found, the process defaulting to "UNKNOWN" |
| LogParser.FlowRule | parser_utils.py:29-43 | the tunnel or else bypass choice: each table grows by exactly that line's row of its kind |
| LogParser.PopRule | parser_utils.py:46-48 | the PoP list grows by the stamped, stripped line exactly when both phrases occur in any case |
| LogParser.RttRule | parser_utils.py:51-54 | the RTT table grows by the line's probe exactly when it is stamped, both phrases occur and the pattern matches |
| LogParser.ErrorRule | parser_utils.py:57-58 | the error table grows by the stamped, stripped line exactly when it holds " error " or " warn " in any case |
| LogParser.GatewayRule | parser_utils.py:61-64 | the last gateway becomes the line's gateway when it names one and is otherwise unchanged |
| LogParser.SteeringRule | parser_utils.py:67-68 | the steering list grows by the stripped line exactly when it holds the phrase |
| LogParser.TenantRule | parser_utils.py:71-74 | the tenant is overwritten by the line's stripped tenant when it has one; the other header fields are unchanged |
| LogParser.AgentRule | parser_utils.py:77-82 | the three agent fields are overwritten together from one user-agent line; the tenant is unchanged |
| LogParser.ParseLogLines | parser_utils.py:6-93 | the single pass returns, for every table, the rows each line contributes in line order, and for every field, the value of the last line that sets it |
| LogParser.DroppedLineChangesNothing | parser_utils.py:19-26 | a line whose timestamp cannot be read changes no result |
| LogParser.KeptLineExtends | parser_utils.py:16-82 | one more kept line extends each table by its row and overwrites each field it sets |
| LogParser.Gather | parser_utils.py:16-58 | a table has at most one row per line |
| LogParser.GatherAppend | parser_utils.py:16-58 | rows come out in line order: the rows of a concatenation of logs are the rows of the first followed by those of the second |
| LogParser.GatherMembers | parser_utils.py:16-58 | a row is in a table exactly when some line contributes it |
| LogParser.LastMatchIsLast | parser_utils.py:61-82 | a field is unset exactly when no line sets it, and otherwise holds the value of a line after which no line sets it |
| LogParser.LastMatchUnique | parser_utils.py:61-82 | the value of a line that sets the field, with no later line setting it, is the field's final value |
| LogParser.LastMatchFrom | parser_utils.py:61-82 | the same, for one given line |
| LogParser.UnstampedLineAddsNoRow | parser_utils.py:33-57 | a line without a timestamp adds no row to any of the five timestamped tables |
| LogParser.TunnelProcessHit | parser_utils.py:30 | the process search finds `process:` and the lazy process field after it |
| LogParser.TunnelHostHit | parser_utils.py:31 | the host search finds `host:` and the token after it |
| LogParser.TunnelAddrHit | parser_utils.py:32 | the address search finds `host:` and, after the host token, the address following `addr:` |
| LogParser.TunnelRowFacts | parser_utils.py:29-34 | a tunnel row comes from a stamped tunnelling line that gives no bypass row; its host is the token after `host:`, its address the token after `host: <run>, addr:`, its process the stripped field after `process:` |
| LogParser.BypassHostHit | parser_utils.py:38 | the host search finds `exception host:` in any case and the token after it |
| LogParser.BypassDestIpHit | parser_utils.py:40 | the address search finds `dest ip:` in any case and the token after it |
| LogParser.BypassProcessHit | parser_utils.py:39 | the process search finds `process:` in any case and the run without `,` or line feed after it |
| LogParser.BypassRowFacts | parser_utils.py:37-43 | a bypass row comes from a stamped bypass-manager line that is not a tunnelling line; its host is the token after `exception host:`, its address the token after `dest ip:`; its process is "UNKNOWN" exactly when no process field is found, and otherwise the stripped run after `process:` |
| LogParser.RttHitFacts | parser_utils.py:52 | the RTT search finds `pop:` and the PoP run, `ip:` run and `rtt:` digits after it |
| LogParser.RttRowFacts | parser_utils.py:51-54 | an RTT row comes from a stamped line holding `post client rtt` and `pop:` in any case; its PoP is the run after `pop:`, its IP the run after `ip:`, its milliseconds the value of the digits after `rtt:` |
| LogParser.ErrorRowIff | parser_utils.py:57-58 | a line gives an error row exactly when it is stamped and holds " error " or " warn " in any case; the row is the stripped line |
| LogParser.GatewayFacts | parser_utils.py:61-64 | a gateway is the name after `connecting to ` in any case; it starts with `gateway-` in any case and has no colon after it |
| LogParser.TenantHit | parser_utils.py:72 | the tenant search finds `url:https://addon-` and the tenant layout after it |
| LogParser.TenantFacts | parser_utils.py:71-74 | a tenant is the stripped text after `url:https://addon-`, and contains a dot |
| LogParser.AgentFacts | parser_utils.py:77-82 | the agent fields are the three stripped fields after `STA user agent:`; the OS and client version fields hold no `;` |
| LogSamples.TunnelSample | parser_utils.py:29-34 | the line `… Tunneling flow from process: chrome.exe to host: example.com, addr:93.184.216.34` gives the row (chrome.exe, example.com, 93.184.216.34) |
| LogSamples.BypassSample | parser_utils.py:37-43 | a bypass-manager line without a process field gives the row (UNKNOWN, zoom.us, 10.0.0.1) |
| LogSamples.BypassProcessSample | parser_utils.py:37-43 | the same line with `, process: zoom.exe` gives the row (zoom.exe, zoom.us, 10.0.0.1) |
| LogSamples.RttSample | parser_utils.py:51-54 | `post client rtt pop:sjc1 ip:163.116.128.1 rtt:25` gives the probe (sjc1, 163.116.128.1, 25) |
| LogSamples.GatewaySample | parser_utils.py:61-64 | `Connecting to gateway-sjc1.goskope.com:443` names the gateway `gateway-sjc1.goskope.com` |
| LogSamples.BadDateSample | parser_utils.py:17-26 | `2024/02/30 03:04:05 Connecting to gateway-sjc1.goskope.com:443` matches the timestamp pattern but cannot be read, so it names no gateway and leaves every result of the lines before it unchanged |
| LogSamples.TenantSample | parser_utils.py:71-74 | `config host:addon.goskope.com url:https://addon-acme.goskope.com/x` gives the tenant `acme.goskope.com/x` |
| LogSamples.AgentSample | parser_utils.py:77-82 | `config setting STA user agent: Windows 10;121.0.0.2021;LAPTOP-01` gives those three fields |
| TimeFilter.Max | parser_utils.py:107-108 | the latest timestamp is one of the timestamps and no timestamp is later; none exactly when there are no timestamps |
| TimeFilter.MaxUnique | parser_utils.py:108 | a timestamp that bounds all the others is the latest |
| TimeFilter.KeepSince | parser_utils.py:111-115 | a row is kept exactly when it is stamped at or after the cutoff |
| TimeFilter.FilterByMinutes | parser_utils.py:95-117 | with no timestamp anywhere the tables come back unchanged; otherwise each table is `KeepSince` of itself at latest − minutes, so it keeps exactly its rows at or after the cutoff, in order and with duplicates |
| TimeFilter.WindowStamps | parser_utils.py:107-115 | the timestamps left are the original ones at or after the cutoff |
| TimeFilter.LatestBounds | parser_utils.py:107-108 | the latest timestamp bounds every row of every table |
| TimeFilter.LatestSurvives | parser_utils.py:107-115 | a window of zero or more minutes keeps the latest timestamp |
| TimeFilter.KeepSinceAppend | parser_utils.py:111-115 | filtering keeps rows in their order: the kept rows of a concatenation are the kept rows of its parts, concatenated |
| TimeFilter.KeepSinceNested | parser_utils.py:109-115 | cutting at a later time after an earlier one equals cutting at the later one |
| TimeFilter.KeepSinceNone | parser_utils.py:111-115 | nothing is kept of rows that all lie before the cutoff |
| TimeFilter.NegativeWindowDropsAll | parser_utils.py:109-115 | a negative number of minutes puts the cutoff after the latest timestamp, so every table comes back empty |
| TimeFilter.FilterNarrowing | parser_utils.py:95-117 | narrowing a window already cut to a wider one gives the narrower window directly |
| TimeFilter.FilterIdempotent | parser_utils.py:95-117 | filtering again with the same number of minutes changes nothing, for every number of minutes |

## Left out

- LastFrom: its own contract says only that the index found is in range and passes the test; that it is the largest, and that none passes when it fails, is `Scan.LastFromSound`.
- Token: its own contract gives only the group's class; where the group sits and when it is found are `Scan.TokenSound`, `Scan.TokenFound` and `Scan.TokenIs`.
- LazyField: its own contract gives only that the group holds no line feed; the backtracking order and the layout are `Scan.ProcessSound`, `Scan.ProcessComplete` and `Scan.ProcessIs`.
- AddrAfterHost: its own contract gives only the group's class; the layout after `host:` is `Scan.AddrSound` and `Scan.AddrIs`.
- RttAt: its own contract gives only the classes of the three groups; which run is which is `Scan.RttSound` and `Scan.RttIs`.
- GatewayAt: its own contract gives only the shape of the name; where it ends is `Scan.GatewaySound` and `Scan.GatewayIs`.
- TenantAt: its own contract gives only the dot; where the tenant starts and ends is `Scan.TenantSound` and `Scan.TenantIs`.
- AgentAt: its own contract gives only the groups' make-up; the split at the first two `;` and the line end are `Scan.AgentAtSound` and `Scan.AgentIs`.
- AgentField: its own contract gives only the groups' make-up; the backtracking order is `Scan.AgentSound`, and when it must match is `Scan.AgentComplete`.
- Attempt: its own contract gives only the group make-up; the layout and when it must match are `Scan.AttemptSound` and `Scan.AttemptComplete`.
- MatchAt: its own contract gives only the group make-up; the literal and the layout are `Scan.MatchSound` and `Scan.MatchComplete`.
- AttemptComplete: where a `\s*` is given back (the tunnel process, bypass process and user-agent patterns), a layout is shown to make the pattern match, but the groups are fixed only by the `...Sound` lemmas' latest-start order, not by this lemma.
- `app.py` is not part of this model. That covers the upload and download handlers, CSV export, HTML rendering, `group_by_process_and_host`, and the way the app calls the parser and the filter.
- The `npadebuglog` parser is left out: `parse_npa_log_lines` is imported by the app but is not defined in the repository.
- pandas is left out. Tables are sequences of rows rather than DataFrames; column names and dtype conversion are not modelled. Every row's timestamp is an exact microsecond count, so pandas' datetime64 range limits do not arise.
- TimeFilter.Cutoff: the subtraction is exact integer arithmetic. The `OverflowError` raised by a `timedelta` or a cutoff outside the date-time range is not modelled. `minutes` is an integer; fractional minutes are not modelled.
- Text.IsDigit: `\d` and `strptime` are modelled as accepting ASCII digits only, but Python also accepts other Unicode decimal digits.
- Text.Lower: `str.lower()` and `re.IGNORECASE` are modelled as ASCII case folding only. Python also folds non-ASCII letters, for example KELVIN SIGN to `k`.
- Reading the log file and decoding its bytes are left out. The input is the sequence of decoded lines.
