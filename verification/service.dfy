/** `checkService`: whether the antivirus service is running, as `wmic`
    reports it. The process run is a collaborator: it receives the argument
    vector and yields either the captured standard output or an error. */
module Service {
  import opened Wrappers
  import opened Text

  const RunningIndicator: string := "Running"
  const WmicFailedMessage: string := "Error with WMIC\n"

  /** The command line `checkService` runs: `wmic service where
      name='<service>' get state`, one word per argument. */
  function WmicCommand(serviceName: string): (argv: seq<string>)
    ensures |argv| == 6 && argv[0] == "wmic"
    ensures argv[3] == "name='" + serviceName + "'"
  {
    ["wmic", "service", "where", "name='" + serviceName + "'", "get", "state"]
  }

  /** The verdict and the diagnostic line `checkService` prints. */
  datatype ServiceState = ServiceState(running: bool, diagnostic: string)

  /** `checkService` given the outcome of running the command: a failed run
      is "not running" and prints a diagnostic, never an abort; otherwise the
      service runs exactly when `Running` occurs anywhere in the output. */
  function CheckService(run: Result<string, Error>): (r: ServiceState)
    ensures r.running <==> run.Success? && exists i :: OccursAt(run.value, RunningIndicator, i)
    ensures r.diagnostic != "" <==> run.Failure?
    ensures run.Failure? ==> r.diagnostic == WmicFailedMessage
  {
    match run
    case Failure(_) => ServiceState(false, WmicFailedMessage)
    case Success(out) => ServiceState(Contains(out, RunningIndicator), "")
  }

  /** The test is a substring test, not a match on the whole state word:
      `Stopped` is "not running", but so would be a lowercase `running`,
      and any output mentioning `Running` counts. */
  lemma CheckServiceExamples()
    ensures CheckService(Success("State    \r\nRunning  \r\n")).running
    ensures !CheckService(Success("State    \r\nStopped  \r\n")).running
    ensures !CheckService(Success("running")).running
    ensures CheckService(Success("NotRunning")).running
    ensures !CheckService(Failure("exit status 1")).running
  {
    assert OccursAt("State    \r\nRunning  \r\n", RunningIndicator, 11);
    assert OccursAt("NotRunning", RunningIndicator, 3);
    var stopped := "State    \r\nStopped  \r\n";
    NotContainsWithoutFirstChar(stopped, RunningIndicator);
    NotContainsWithoutFirstChar("running", RunningIndicator);
  }
}
