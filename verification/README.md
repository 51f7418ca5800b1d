# monitorEAMAV in Dafny

A model of `monitorEAMAV`, a one-shot health probe for Emsisoft Anti-Malware
on Windows. The probe:

1. looks up the product's display name and install location in the Windows
   Uninstall registry;
2. scans `<install location>/a2settings.ini` for the last signature update;
3. decides whether that update is less than two hours old;
4. asks `wmic` whether the `a2AntiMalware` service is running;
5. serialises `{Product, Running, UpToDate}` as JSON, prints it and writes it
   to `%ProgramData%/CentraStage/AEMAgent/antivirus.json`.

The model keeps the decision logic. The operating-system calls become the
fields of an `Env` value: registry lookup, scanner open, clock, zone offset,
command run and file write. `main` becomes the pure function `Probe.Probe`
from an `Env` to an `Outcome`. The outcome is either a fatal stop, with what
was printed before it, or the completed run with its stdout text, path and
file contents.

Modules, one per concern of the source file:

- `Wrappers`: `Option`, `Result` and the abstract Go `error`.
- `Text`: `strings.Contains`, `strings.HasPrefix` and `strings.Split`. Each
  has an independent characterisation: occurrence at an index, and
  split-then-join.
- `Strconv`: `strconv.Atoi` on a 64-bit `int`, with `Itoa` as its inverse.
- `DateReader`: `readDate`. It is written twice:
  - `ReadDate` is a functional search;
  - `ReadDateLoop` is the Go nested loops, with their `r`/`i` flags and the
    order in which `Scan` is called.

  Both are proved equal to a quantified description of the selected line
  (`Selected`).
- `Freshness`: `checkDate`. Time is integer nanoseconds and Unix seconds,
  and the clamping `time.Time.Sub` does on overflow is modelled.
- `Service`: the decision in `checkService`, and the `wmic` argument vector.
- `StatusJson`: the `aemJSON` record and `json.Marshal` of it, including
  `encoding/json`'s string escaping. A reader (`ParseRecord`) serves as its
  partner: the two are linked by a round-trip proof.
- `Probe`: `main`.

Behaviour of the code that the model keeps, including where it differs from
what the comments in the code describe:

- `readDate` returns `strings.Split(line, "=")[1]`. That is the text between
  the first and the second `=`, not everything after the first `=`.
- A missing `LastUpdated` line and a missing `Date=` line both give
  `("", nil)` at a clean end of file, and the two cases cannot be told apart.
  The run then fails only because `strconv.Atoi("")` is a syntax error. No
  separate "section not found" or "key not found" error exists.
- The error from `getValuesFromRegistry` is overwritten without being
  checked. A failed lookup behaves like an empty name and location, so the
  probe opens `/a2settings.ini` (`Probe.RegistryErrorIgnored`).
- The struct tags are written `json: "product"`, with a space after the
  colon, and Go does not recognise them. The keys written are therefore the
  field names `Product`, `Running` and `UpToDate`, not the lower-case keys
  shown in the comments.
- `json.Marshal` cannot fail for a string and two booleans, so the fatal
  branch after it is unreachable and `Marshal` is total.
- A failed `wmic` run prints `Error with WMIC` to standard output before the
  JSON. It never stops the run (`Probe.ServiceNeverAborts`).
- If the status file write fails, the JSON has already been printed.
- The zone offset is taken at the stored instant. Across a change of offset,
  such as the start of daylight saving time, a later timestamp can therefore
  be judged staler than an earlier one (`Freshness.CheckDateAcrossOffsetChange`).

The run is deterministic by construction: `Probe` is a function of its
`Env`, so unchanged surroundings give byte-identical output.
`StatusJson.MarshalInjective` adds that different records never give the
same bytes.

## Model

| member | source | states |
|---|---|---|
| Text.Contains | monitorEAMAV.go:61 | the search succeeds exactly when `sub` occurs at some index of `s` |
| Text.HasPrefix | monitorEAMAV.go:65 | true exactly when `s` is `p` followed by some string |
| Text.Split | monitorEAMAV.go:67 | at least one piece; no piece contains the separator; joining the pieces with the separator gives back the input |
| Text.SplitSecondPiece | monitorEAMAV.go:67 | a string containing the separator has a second piece, which is the text between its first and second separator |
| DateReader.DateToken | monitorEAMAV.go:65-67 | for a `Date=` line, `Split(line, "=")[1]` always exists, never contains `=`, and is the text after `Date=` up to the next `=` or the end of the line |
| DateReader.FirstFrom | monitorEAMAV.go:59-70 | the forward scan returns the first line at or after the start that matches, and `None` only when no such line exists |
| DateReader.DateLineIndex | monitorEAMAV.go:59-70 | the two nested searches find the selected line (the first `Date=` line strictly after the first `LastUpdated` line) when one exists, and nothing otherwise |
| DateReader.ReadDate | monitorEAMAV.go:58-74 | if a `Date=` line comes strictly after the first `LastUpdated` line with no `Date=` line between them, its token is returned with no error; if there is none, the empty token is returned with the scanner's error |
| DateReader.ReadDateLoop | monitorEAMAV.go:58-74 | the nested Go loops, with their flags and `Scan` order, return exactly what `ReadDate` returns |
| DateReader.SelectedUnique | monitorEAMAV.go:59-70 | at most one line is the selected `Date=` line |
| DateReader.ReadDateSkipsLeadingLines | monitorEAMAV.go:59-62 | adding lines that contain no `LastUpdated` in front of the file does not change the result |
| DateReader.DateLineIndexSkips | monitorEAMAV.go:59-62 | prepending lines that contain no `LastUpdated` shifts the selected line by their number and changes nothing else |
| DateReader.ReadDateIgnoresLaterLines | monitorEAMAV.go:63-69 | once a `Date=` line is selected, later lines and the scanner's final error do not matter |
| DateReader.ReadDateNotFound | monitorEAMAV.go:72-73 | a missing `LastUpdated` line and a missing `Date=` line after it give the same result: the empty token and the scanner's error |
| DateReader.ReadDateExample1 | monitorEAMAV.go:61-67 | the marker line is never tested for `Date=`, a `[Section]` header after the marker does not end the search, and the token stops at the second `=` |
| DateReader.ReadDateExample3 | monitorEAMAV.go:65-68 | a bare `Date=` after the marker gives the empty token with no error, even if the scanner later failed |
| Strconv.Atoi | monitorEAMAV.go:148-151 | succeeds exactly on an optional sign followed by at least one digit whose value fits in 64 bits, and returns that value; any other string, the empty one and a lone sign included, is a syntax error, and a well-formed string out of range is a range error |
| Strconv.AtoiItoa | monitorEAMAV.go:148 | every 64-bit integer survives `Atoi(Itoa(n))` |
| Freshness.Sub | monitorEAMAV.go:80 | the result is a `Duration`, and no `Duration` lies closer to the true nanosecond difference; it is that difference whenever it fits |
| Freshness.CheckDate | monitorEAMAV.go:76-84 | up to date exactly when `now − (lastUpdate − offset(lastUpdate))` seconds is strictly below `d`; the clamping of `Sub` never changes this verdict |
| Freshness.CheckDateBoundary | monitorEAMAV.go:80 | elapsed time equal to `d` is stale; one nanosecond less is fresh |
| Freshness.CheckDateMonotone | monitorEAMAV.go:76-83 | with the zone offset fixed, a later update, a longer window or an earlier clock never turns fresh into stale |
| Freshness.CheckDateAcrossOffsetChange | monitorEAMAV.go:77-79 | when the zone offset rises between two instants, the later update can be stale while the earlier one is fresh |
| Freshness.CheckDateExamples | monitorEAMAV.go:154 | an update at the corrected current second is fresh under two hours; one thirty days old is stale under any shorter window |
| Service.CheckService | monitorEAMAV.go:102-110 | a failed command gives "not running" plus the `Error with WMIC` diagnostic; otherwise the service is running exactly when `Running` occurs somewhere in the output |
| Service.CheckServiceExamples | monitorEAMAV.go:107-110 | `Running` anywhere counts, `NotRunning` included; `Stopped`, lower-case `running` and a failed run do not |
| StatusJson.EscapeString | monitorEAMAV.go:165 | the escaped text never holds a raw control character and copies plain text unchanged |
| StatusJson.EscapeCharDecodes | monitorEAMAV.go:165 | every character's escape reads back as that character |
| StatusJson.EscapeStringDecodes | monitorEAMAV.go:165 | reading an escaped string up to its closing quote gives back the string and what follows the quote |
| StatusJson.Marshal | monitorEAMAV.go:116-120 | the output starts with `{"Product":"` and ends with `}` |
| StatusJson.MarshalRoundTrip | monitorEAMAV.go:116-120 | reading the serialised record with the Go field names in declaration order gives back the record |
| StatusJson.MarshalInjective | monitorEAMAV.go:159-165 | different records never serialise to the same text |
| StatusJson.EscapeExamples | monitorEAMAV.go:165 | `<` becomes `\u003c`, a quote gets a backslash, and plain text is unchanged |
| StatusJson.MarshalExample | monitorEAMAV.go:116-120 | an installed, running, up-to-date product serialises to `{"Product":"Example AV","Running":true,"UpToDate":true}`, with the capitalised Go field names as keys |
| Probe.Status | monitorEAMAV.go:153-163 | the record holds the given display name, whether `wmic` ran and mentioned `Running`, and whether less than two hours separate the clock from the offset-corrected update |
| Probe.Report | monitorEAMAV.go:165-173 | the run completes exactly when writing the serialised record succeeds, and then writes that record; stdout is the record alone when `wmic` ran, and the record after `Error with WMIC` when it failed |
| Probe.Probe | monitorEAMAV.go:122-175 | a stop before the write has printed nothing; a completed run writes to `%ProgramData%/CentraStage/AEMAgent/antivirus.json` and prints the data, after `Error with WMIC` exactly when `wmic` failed |
| Probe.ProbeCompletedRecord | monitorEAMAV.go:133-173 | a completed run opened the settings file, selected a `Date=` line whose token `Atoi` accepts, wrote the status file without error, and the bytes written are `json.Marshal` of the record assembled from the registry name and that token, which read back as that record |
| Probe.ProbeCompletesWhen | monitorEAMAV.go:133-173 | conversely, an opened file, a selected line whose token `Atoi` accepts and a successful write of the record assembled from it make the run complete with that record |
| Probe.ProbeAbortCauses | monitorEAMAV.go:133-173 | each fatal stop has its cause: the file did not open; the scanner failed before selecting a line; `Atoi` rejected the selected token, or the empty token when none was selected; or, with a token accepted, writing the record assembled from it failed |
| Probe.ProbeMissingSectionIsFatal | monitorEAMAV.go:142-151 | a file with no `LastUpdated` line stops the run with an `Atoi` syntax error and prints nothing |
| Probe.ProbeMissingKeyIsFatal | monitorEAMAV.go:142-151 | a `LastUpdated` line with no `Date=` line after it stops the run the same way |
| Probe.ProbeScanError | monitorEAMAV.go:142-145 | a scanner error stops the run exactly when no `Date=` line was selected before it |
| Probe.RegistryErrorIgnored | monitorEAMAV.go:133-136 | a failed registry lookup behaves exactly like one that found empty values, and the file opened is `/a2settings.ini` |
| Probe.ServiceNeverAborts | monitorEAMAV.go:157 | when the write cannot fail, whether the run completes does not depend on the `wmic` result |
| Probe.ExampleHostReports | monitorEAMAV.go:122-175 | on a host with `[LastUpdated]` / `Date=1700000000` one hour before the clock, the run completes and writes `Example AV`, the service verdict and "up to date" |

## Left out

- Registry access (monitorEAMAV.go:34-56) is a Windows system call. `Env.lookup` stands in for its result: the two values or an error.
- UTF-16 decoding and line splitting by `utfutil.NewScanner` are library code. `Env.openScanner` gives the decoded lines and the scanner's final error.
- Running `wmic` is an external process. `Env.run` gives its standard output or an error.
- The real clock and the time-zone database are parameters: `Env.nowNanos` and `Env.zoneOffset`.
- The `ProgramData` lookup, file permissions, and `log.Fatal`'s message and exit status are not modelled. The outcome records only which fatal call stopped the run.
- Freshness.CheckDate: treats the stored value as an unbounded integer. `time.Unix` adds 62135596800 to it in `int64`, which wraps for values within that distance of 2^63; no real timestamp comes near this.
- Freshness.CheckDate: for the most negative `d` the verdict is always "stale". `main` only uses two hours.
- Strconv.Atoi: names the error kind by the first problem found for the whole string. Go reports a range error when an over-long digit run overflows before a malformed character appears. Only the message of the fatal stop differs.
- Strconv.Atoi: assumes a 64-bit `int`, as on 64-bit Windows. On a 32-bit build the accepted range is narrower.
- StatusJson.EscapeString: follows `encoding/json` before Go 1.22, which writes backspace and form feed as `\u0008` and `\u000c`. Later versions write `\b` and `\f`.
- StatusJson.EscapeString: does not replace invalid UTF-8 with U+FFFD. Strings here are sequences of Unicode scalar values, and registry strings decode to valid text.
- StatusJson.DecodeBody: is only the partner of `Marshal`. It refuses escapes of lone surrogate halves rather than pairing them.
