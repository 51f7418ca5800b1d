/** `main`: the probe run as a whole, a pure function from the results of
    its collaborators (registry, settings file, clock, time zone, `wmic`,
    status file write) to either a fatal stop or the written status. */
module Probe {
  import opened Wrappers
  import opened Text
  import opened Strconv
  import opened DateReader
  import opened Freshness
  import opened Service
  import opened StatusJson

  /** The Uninstall registry key of Emsisoft Anti-Malware. */
  const ProductGuid: string := "{5502032C-88C1-4303-99FE-B5CBD7684CEA}_is1"
  const ServiceName: string := "a2AntiMalware"
  const SettingsFile: string := "/a2settings.ini"
  const StatusFile: string := "/CentraStage/AEMAgent/antivirus.json"

  /** The two registry values `getValuesFromRegistry` reads. */
  datatype InstalledProduct = InstalledProduct(displayName: string, installLocation: string)

  /** What the probe's surroundings answer:
      - `lookup(guid)`: `getValuesFromRegistry(guid)`;
      - `programData`: the `ProgramData` environment variable;
      - `openScanner(path)`: `utfutil.NewScanner(path, WINDOWS)`, failing or
        yielding the decoded lines and the scanner's final error;
      - `nowNanos`: the clock in Unix nanoseconds;
      - `zoneOffset(t)`: the local zone's UTC offset in seconds at Unix second `t`;
      - `run(argv)`: running a command, failing or yielding its standard output;
      - `writeFile(path, data)`: `ioutil.WriteFile`, `None` on success. */
  datatype Env = Env(
    lookup: string -> Result<InstalledProduct, Error>,
    programData: string,
    openScanner: string -> Result<ScanInput, Error>,
    nowNanos: int,
    zoneOffset: int -> int,
    run: seq<string> -> Result<string, Error>,
    writeFile: (string, string) -> Option<Error>)

  /** The `log.Fatal` calls of `main`. */
  datatype Fatal =
    | OpenFailed(openError: Error)
    | ReadFailed(readError: Error)
    | ParseFailed(parseError: NumError)
    | WriteFailed(writeError: Error)

  /** How a run ends, and what it printed to standard output first. */
  datatype Outcome =
    | Aborted(cause: Fatal, stdout: string)
    | Completed(stdout: string, path: string, data: string)

  /** `getValuesFromRegistry` returns empty strings with its error, and
      `main` never looks at that error: it is overwritten by the next
      assignment to `err`. */
  function RegistryValues(r: Result<InstalledProduct, Error>): (v: InstalledProduct)
    ensures r.Failure? ==> v == InstalledProduct("", "")
    ensures r.Success? ==> v == r.value
  {
    match r
    case Success(v) => v
    case Failure(_) => InstalledProduct("", "")
  }

  /** The path of the settings file `main` opens. */
  function SettingsPath(env: Env): string {
    RegistryValues(env.lookup(ProductGuid)).installLocation + SettingsFile
  }

  /** The record `main` assembles once the token has parsed: the display
      name, whether `wmic` ran and mentioned `Running`, and whether less
      than two hours separate the clock from the offset-corrected update. */
  function Status(env: Env, displayName: string, lastUpdate: int): (rec: AemJson)
    ensures rec.product == displayName
    ensures var run := env.run(WmicCommand(ServiceName));
            rec.running <==> run.Success? && exists i :: OccursAt(run.value, RunningIndicator, i)
    ensures rec.upToDate <==>
            env.nowNanos - UpdateInstant(lastUpdate, env.zoneOffset) * NanosPerSecond < MaxStaleness
  {
    AemJson(displayName,
            CheckService(env.run(WmicCommand(ServiceName))).running,
            CheckDate(lastUpdate, MaxStaleness, env.nowNanos, env.zoneOffset))
  }

  /** The tail of `main`: print the serialised record (after the `wmic`
      diagnostic, if any), then write it to the status file. */
  function Report(env: Env, rec: AemJson): (out: Outcome)
    ensures out.Completed? ==> out.path == env.programData + StatusFile && out.data == Marshal(rec)
    ensures out.Completed? <==> env.writeFile(env.programData + StatusFile, Marshal(rec)) == None
    ensures env.run(WmicCommand(ServiceName)).Success? ==> out.stdout == Marshal(rec)
    ensures env.run(WmicCommand(ServiceName)).Failure? ==> out.stdout == WmicFailedMessage + Marshal(rec)
  {
    var output := Marshal(rec);
    var stdout := CheckService(env.run(WmicCommand(ServiceName))).diagnostic + output;
    var path := env.programData + StatusFile;
    match env.writeFile(path, output)
    case Some(e) => Aborted(WriteFailed(e), stdout)
    case None => Completed(stdout, path, output)
  }

  /** `main`. */
  function Probe(env: Env): (out: Outcome)
    ensures out.Aborted? && !out.cause.WriteFailed? ==> out.stdout == ""
    ensures out.Completed? ==> out.path == env.programData + StatusFile
    ensures out.Completed? && env.run(WmicCommand(ServiceName)).Success? ==> out.stdout == out.data
    ensures out.Completed? && env.run(WmicCommand(ServiceName)).Failure? ==>
            out.stdout == WmicFailedMessage + out.data
  {
    var values := RegistryValues(env.lookup(ProductGuid));
    match env.openScanner(values.installLocation + SettingsFile)
    case Failure(e) => Aborted(OpenFailed(e), "")
    case Success(input) =>
      var read := ReadDate(input);
      if read.err.Some? then Aborted(ReadFailed(read.err.value), "")
      else
        match Atoi(read.token)
        case Failure(ne) => Aborted(ParseFailed(ne), "")
        case Success(lastUpdate) => Report(env, Status(env, values.displayName, lastUpdate))
  }

  /** What a completed run wrote: the settings file opened, its scan
      selected a `Date=` line whose token is a 64-bit decimal, the write of
      the status file succeeded, and that file holds `json.Marshal` of the
      record `Status` assembles from the registry's display name (empty
      when the lookup failed) and that token, which reads back as that
      record. */
  lemma ProbeCompletedRecord(env: Env)
    requires Probe(env).Completed?
    ensures env.openScanner(SettingsPath(env)).Success?
    ensures var lines := env.openScanner(SettingsPath(env)).value.lines;
            exists j :: Selected(lines, j) && Atoi(DateToken(lines[j])).Success? &&
              env.writeFile(env.programData + StatusFile, Probe(env).data) == None &&
              Probe(env).data ==
                Marshal(Status(env, RegistryValues(env.lookup(ProductGuid)).displayName, SignedValue(DateToken(lines[j])))) &&
              ParseRecord(Probe(env).data) ==
                Some(Status(env, RegistryValues(env.lookup(ProductGuid)).displayName, SignedValue(DateToken(lines[j]))))
  {
    var input := env.openScanner(SettingsPath(env)).value;
    var read := ReadDate(input);
    assert read.err.None? && Atoi(read.token).Success?;
    assert Atoi("").Failure?;
    assert exists j :: Selected(input.lines, j);
    var j :| Selected(input.lines, j);
    assert read.token == DateToken(input.lines[j]);
    var rec := Status(env, RegistryValues(env.lookup(ProductGuid)).displayName, SignedValue(read.token));
    assert Probe(env) == Report(env, rec);
    MarshalRoundTrip(rec);
  }

  /** The converse: when the settings file opens, its scan selects a line
      whose token is a 64-bit decimal, and the status file write of the
      record assembled from it succeeds, the run completes with that record,
      whatever the scanner's final error. */
  lemma ProbeCompletesWhen(env: Env, input: ScanInput, j: nat)
    requires env.openScanner(SettingsPath(env)) == Success(input)
    requires Selected(input.lines, j)
    requires Atoi(DateToken(input.lines[j])).Success?
    requires env.writeFile(env.programData + StatusFile,
                           Marshal(Status(env, RegistryValues(env.lookup(ProductGuid)).displayName,
                                          SignedValue(DateToken(input.lines[j]))))) == None
    ensures Probe(env).Completed?
    ensures Probe(env).data ==
            Marshal(Status(env, RegistryValues(env.lookup(ProductGuid)).displayName, SignedValue(DateToken(input.lines[j]))))
  {
    assert ReadDate(input) == ReadResult(DateToken(input.lines[j]), None);
  }

  /** Why a run stops, in terms of what its surroundings answered: the
      settings file did not open; the scanner failed before a `Date=` line
      was selected; the selected token, or the empty token when none was
      selected, is not a 64-bit decimal; or the status file write failed. */
  lemma ProbeAbortCauses(env: Env)
    requires Probe(env).Aborted?
    ensures var settings := env.openScanner(SettingsPath(env));
            (match Probe(env).cause
            case OpenFailed(e) => settings == Failure(e)
            case ReadFailed(e) =>
              settings.Success? && settings.value.err == Some(e) && forall j :: !Selected(settings.value.lines, j)
            case ParseFailed(ne) =>
              settings.Success? &&
              ((settings.value.err.None? && (forall j :: !Selected(settings.value.lines, j)) && ne == ErrSyntax) ||
               (exists j :: Selected(settings.value.lines, j) && Atoi(DateToken(settings.value.lines[j])) == Failure(ne)))
            case WriteFailed(e) =>
              settings.Success? &&
              exists j :: Selected(settings.value.lines, j) && Atoi(DateToken(settings.value.lines[j])).Success? &&
                env.writeFile(env.programData + StatusFile,
                              Marshal(Status(env, RegistryValues(env.lookup(ProductGuid)).displayName,
                                             SignedValue(DateToken(settings.value.lines[j]))))) == Some(e))
  {
    var settings := env.openScanner(SettingsPath(env));
    if settings.Success? {
      var input := settings.value;
      var read := ReadDate(input);
      if exists j :: Selected(input.lines, j) {
        var j :| Selected(input.lines, j);
        assert read == ReadResult(DateToken(input.lines[j]), None);
      }
      if read.err.None? && Atoi(read.token).Success? {
        var rec := Status(env, RegistryValues(env.lookup(ProductGuid)).displayName, Atoi(read.token).value);
        assert Probe(env) == Report(env, rec);
      }
    }
  }

  /** A settings file without a `LastUpdated` line is fatal only through
      `Atoi` rejecting the empty token, and nothing is printed. */
  lemma ProbeMissingSectionIsFatal(env: Env, lines: seq<string>)
    requires env.openScanner(SettingsPath(env)) == Success(ScanInput(lines, None))
    requires forall k :: 0 <= k < |lines| ==> !IsMarker(lines[k])
    ensures Probe(env) == Aborted(ParseFailed(ErrSyntax), "")
  {
    ReadDateNotFound(ScanInput(lines, None));
  }

  /** The same holds when the marker is present but no `Date=` line follows. */
  lemma ProbeMissingKeyIsFatal(env: Env, lines: seq<string>, i: nat)
    requires env.openScanner(SettingsPath(env)) == Success(ScanInput(lines, None))
    requires FirstMarkerAt(lines, i)
    requires forall k :: i < k < |lines| ==> !IsDateLine(lines[k])
    ensures Probe(env) == Aborted(ParseFailed(ErrSyntax), "")
  {
    ReadDateNotFound(ScanInput(lines, None));
  }

  /** A scanner error is fatal only when the scan stopped before selecting a
      `Date=` line. */
  lemma ProbeScanError(env: Env, lines: seq<string>, e: Error)
    requires env.openScanner(SettingsPath(env)) == Success(ScanInput(lines, Some(e)))
    ensures Probe(env) == Aborted(ReadFailed(e), "") <==> forall j :: !Selected(lines, j)
  {
  }

  /** The registry error is ignored: a failed lookup behaves exactly like a
      lookup that found an empty display name and install location, so the
      probe goes on to open `/a2settings.ini`. */
  lemma RegistryErrorIgnored(env: Env, e: Error)
    requires env.lookup(ProductGuid) == Failure(e)
    ensures SettingsPath(env) == SettingsFile
    ensures Probe(env) == Probe(env.(lookup := (guid: string) => Success(InstalledProduct("", ""))))
  {
  }

  /** The service query never aborts a run: when writing the status file
      cannot fail, whether the run completes does not depend on what `wmic`
      does. */
  lemma ServiceNeverAborts(env: Env, run: seq<string> -> Result<string, Error>)
    requires forall path, data :: env.writeFile(path, data) == None
    ensures Probe(env).Completed? <==> Probe(env.(run := run)).Completed?
  {
  }

  const ExampleLines: seq<string> := ["[LastUpdated]", "Date=1700000000"]

  /** A host where the product is installed under `/eam`, its settings
      record an update one hour before the clock, the zone is UTC, every
      write succeeds and `wmic` answers `service`. */
  function ExampleHost(service: Result<string, Error>): Env {
    Env(
      (guid: string) => if guid == ProductGuid then Success(InstalledProduct("Example AV", "/eam"))
                        else Failure("key not found"),
      "C:/ProgramData",
      (path: string) => if path == "/eam/a2settings.ini" then Success(ScanInput(ExampleLines, None))
                        else Failure("file not found"),
      (1700000000 + 3600) * NanosPerSecond,
      (t: int) => 0,
      (argv: seq<string>) => service,
      (path: string, data: string) => None)
  }

  lemma ExampleToken()
    ensures ReadDate(ScanInput(ExampleLines, None)) == ReadResult("1700000000", None)
  {
    ExampleMarker();
    ExampleDateToken();
    assert FirstMarkerAt(ExampleLines, 0);
    assert Selected(ExampleLines, 1);
  }

  lemma ExampleMarker()
    ensures IsMarker(ExampleLines[0])
  {
    assert ExampleLines[0][1..12] == Marker;
    assert OccursAt(ExampleLines[0], Marker, 1);
  }

  lemma ExampleDateToken()
    ensures IsDateLine(ExampleLines[1]) && DateToken(ExampleLines[1]) == "1700000000"
  {
    var line := ExampleLines[1];
    assert line[..5] == DateKey;
    assert line[5..] == "1700000000";
    assert '=' !in "1700000000";
  }

  lemma ExampleTimestamp()
    ensures Atoi("1700000000") == Success(1700000000)
  {
    assert DigitsValue("1") == 1;
    assert "17"[..1] == "1";
    assert DigitsValue("17") == 17;
    assert "170"[..2] == "17";
    assert DigitsValue("170") == 170;
    assert "1700"[..3] == "170";
    assert DigitsValue("1700") == 1700;
    assert "17000"[..4] == "1700";
    assert DigitsValue("17000") == 17000;
    assert "170000"[..5] == "17000";
    assert DigitsValue("170000") == 170000;
    assert "1700000"[..6] == "170000";
    assert DigitsValue("1700000") == 1700000;
    assert "17000000"[..7] == "1700000";
    assert DigitsValue("17000000") == 17000000;
    assert "170000000"[..8] == "17000000";
    assert DigitsValue("170000000") == 170000000;
    assert "1700000000"[..9] == "170000000";
    assert DigitsValue("1700000000") == 1700000000;
  }

  /** The run on the example host completes, writing the product's name, the
      service verdict and an up-to-date verdict. */
  lemma ExampleHostReports(service: Result<string, Error>)
    ensures Probe(ExampleHost(service)).Completed?
    ensures Probe(ExampleHost(service)).data ==
            Marshal(AemJson("Example AV", CheckService(service).running, true))
  {
    var env := ExampleHost(service);
    assert RegistryValues(env.lookup(ProductGuid)) == InstalledProduct("Example AV", "/eam");
    assert "/eam" + SettingsFile == "/eam/a2settings.ini";
    assert env.openScanner("/eam/a2settings.ini") == Success(ScanInput(ExampleLines, None));
    ExampleToken();
    ExampleTimestamp();
    assert CheckDate(1700000000, MaxStaleness, env.nowNanos, env.zoneOffset);
    assert Status(env, "Example AV", 1700000000) == AemJson("Example AV", CheckService(service).running, true);
  }
}
