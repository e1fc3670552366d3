/**
 * Server-side export (`get_result_data_sse`) and its pre-flight checks. The one
 * piece of handler state is the time of the last export start, `last_get_rd_sse`;
 * times are whole seconds and the clock reading is the parameter `now`.
 *
 * The SOAP call that starts the export is the parameter `start` (request to export
 * id) and the status poller is the parameter `poll` (export id to its report).
 */
module ServerSideExport {
  import opened Errors
  import opened PyStrings
  import opened VersionGate

  /** The keyword arguments `get_result_data_sse` reads (`sse_format`, `sse_leading`, `trailing`). */
  datatype SseOptions = SseOptions(format: Option<string>, leading: Option<string>, trailing: Option<string>)

  /** What the server and the clock report during one call. */
  datatype SseEnv = SseEnv(platform65: bool, probe: VersionProbe, rowCount: int, now: int)

  /** The export options of the GetResultData request; `export_flag` is always 1. */
  datatype ExportRequest = ExportRequest(exportFormat: int, leadingText: Option<string>, trailingText: Option<string>)

  /** Whether the poller saw the export complete, its last status, and the downloaded data. */
  datatype PollReport = PollReport(success: bool, status: string, data: string)

  /** Exported text as the server wrote it, or a result set parsed from exported XML. */
  datatype ExportData = Text(text: string) | ParsedXml(xml: string)

  function FormatOf(opts: SseOptions): string {
    opts.format.GetOr("xml_obj")
  }

  /** An option is sent only when its text is non-empty. */
  function NonEmpty(s: Option<string>): Option<string> {
    if s.Some? && s.value != [] then s else None
  }

  // ---------------------------------------------------------------------------
  // Timing check

  /** The last export started less than one whole second before `now`. */
  predicate UnderOneSecond(last: int, now: int) {
    0 <= now - last < 1
  }

  /** `(now - last).seconds == 0`: the seconds field of a timedelta leaves out whole days. */
  predicate SecondsFieldIsZero(last: int, now: int) {
    (now - last) % 86400 == 0
  }

  /** `_check_sse_timing` as written. */
  function TimingAsWritten(last: Option<int>, okVersion: bool, now: int): Outcome {
    if last.Some? && SecondsFieldIsZero(last.value, now) && !okVersion
    then Fail(ServerSideExportError(ExportTooSoon))
    else Pass
  }

  /** `_check_sse_timing` as intended: refuse an export less than a second after the last. */
  function Timing(last: Option<int>, okVersion: bool, now: int): Outcome {
    if last.Some? && UnderOneSecond(last.value, now) && !okVersion
    then Fail(ServerSideExportError(ExportTooSoon))
    else Pass
  }

  /** As written, an export exactly one day after the last is refused as too soon. */
  lemma TimingAsWrittenRefusesNextDay()
    ensures TimingAsWritten(Some(0), false, 86400) == Fail(ServerSideExportError(ExportTooSoon))
    ensures Timing(Some(0), false, 86400) == Pass
  {
    assert (86400 - 0) % 86400 == 0;
  }

  /** Within one day of the last export the two readings agree. */
  lemma TimingAgreesWithinADay(last: int, okVersion: bool, now: int)
    requires 0 <= now - last < 86400
    ensures TimingAsWritten(Some(last), okVersion, now) == Timing(Some(last), okVersion, now)
  {
  }

  // ---------------------------------------------------------------------------
  // Empty result-set check

  /**
   * `_check_sse_empty_rs`: only a server below the crash-map version is checked, and
   * then an empty result set is refused.
   */
  function EmptyRs(okVersion: bool, rowCount: int): Outcome {
    if !okVersion && rowCount == 0 then Fail(ServerSideExportError(EmptyResultSet)) else Pass
  }

  // ---------------------------------------------------------------------------
  // The whole call

  /**
   * The pre-flight of `get_result_data_sse`: the platform check, the crash prevention
   * (timing, then empty result set, both keyed on the crash-map version check), then
   * the format resolution; the request to send when all of them pass.
   */
  function ExportPlan(last: Option<int>, opts: SseOptions, env: SseEnv): Result<ExportRequest> {
    if !env.platform65 then Err(UnsupportedVersionError)
    else
      var ok := VersionSupported(env.probe, SseCrashVersions);
      match Timing(last, ok, env.now)
      case Fail(e) => Err(e)
      case Pass =>
        match EmptyRs(ok, env.rowCount)
        case Fail(e) => Err(e)
        case Pass =>
          match ResolveSseFormat(FormatOf(opts), env.probe)
          case Err(e) => Err(e)
          case Ok(code) => Ok(ExportRequest(code, NonEmpty(opts.leading), NonEmpty(opts.trailing)))
  }

  /** The recorded export time after the call: `now` whenever the timing check was reached and passed. */
  function LastAfter(last: Option<int>, env: SseEnv): Option<int> {
    if env.platform65 && Timing(last, VersionSupported(env.probe, SseCrashVersions), env.now).Pass?
    then Some(env.now)
    else last
  }

  /** Start the export, wait for it, and turn the downloaded data into the result. */
  function Collect(format: string, req: ExportRequest, start: ExportRequest -> string,
                   poll: string -> PollReport): Result<ExportData>
  {
    var report := poll(start(req));
    if !report.success then Err(ServerSideExportError(PollerFailed(report.status)))
    else if Lower(format) == "xml_obj" then
      if report.data == [] then Ok(Text(report.status)) else Ok(ParsedXml(report.data))
    else Ok(Text(report.data))
  }

  /**
   * No export is started unless the platform supports export, the crash prevention
   * passes and the format resolves; what is then sent names one of the three API
   * formats and carries leading and trailing text only when they are non-empty.
   */
  lemma ExportPlanMeaning(last: Option<int>, opts: SseOptions, env: SseEnv)
    ensures var plan, ok := ExportPlan(last, opts, env), VersionSupported(env.probe, SseCrashVersions);
      && (plan.Ok? <==>
            && env.platform65
            && !(last.Some? && UnderOneSecond(last.value, env.now) && !ok)
            && !(env.rowCount == 0 && !ok)
            && ResolveSseFormat(FormatOf(opts), env.probe).Ok?)
      && (plan.Ok? ==> plan.value.exportFormat in {0, 1, 2})
      && (plan.Ok? ==> (plan.value.leadingText.Some? <==> opts.leading.Some? && opts.leading.value != []))
      && (plan.Ok? ==> (plan.value.trailingText.Some? <==> opts.trailing.Some? && opts.trailing.value != []))
  {
    var format := FormatOf(opts);
    ResolveSseFormatMeaning(format, env.probe);
  }

  /**
   * The platform check comes first, and the timing check comes before the empty-result
   * check: a too-early export on an old server is refused as too early even when its
   * result set is empty.
   */
  lemma PreflightOrder(last: int, opts: SseOptions, env: SseEnv)
    requires env.platform65
    requires !VersionSupported(env.probe, SseCrashVersions)
    requires UnderOneSecond(last, env.now)
    ensures ExportPlan(Some(last), opts, env) == Err(ServerSideExportError(ExportTooSoon))
    ensures LastAfter(Some(last), env) == Some(last)
  {
  }

  /** A server at or above the crash-map version never trips the crash prevention. */
  lemma OkVersionSkipsCrashPrevention(last: Option<int>, opts: SseOptions, env: SseEnv)
    requires env.platform65
    requires VersionSupported(env.probe, SseCrashVersions)
    ensures ExportPlan(last, opts, env) ==
      match ResolveSseFormat(FormatOf(opts), env.probe)
      case Err(e) => Err(e)
      case Ok(code) => Ok(ExportRequest(code, NonEmpty(opts.leading), NonEmpty(opts.trailing)))
    ensures LastAfter(last, env) == Some(env.now)
  {
  }

  /** The default format is 'xml_obj', which needs a 6.5.314.4300 server. */
  lemma DefaultFormatNeedsNewServer(last: Option<int>, env: SseEnv)
    requires env.platform65
    requires VersionSupported(env.probe, SseCrashVersions)
    ensures ExportPlan(last, SseOptions(None, None, None), env) == Ok(ExportRequest(1, None, None))
  {
    assert Lower("xml_obj") == "xml_obj";
    ResolveSseFormatMeaning("xml_obj", env.probe);
  }

  class Handler {
    /** `last_get_rd_sse`: when the last export passed the timing check; None before the first. */
    var lastSse: Option<int>

    constructor()
      ensures lastSse == None
    {
      lastSse := None;
    }

    /** `_check_sse_timing`: refuses, or records `now` as the last export time. */
    method CheckSseTiming(okVersion: bool, now: int) returns (o: Outcome)
      modifies this
      ensures o.Fail? <==> !okVersion && old(lastSse).Some? && UnderOneSecond(old(lastSse).value, now)
      ensures o.Fail? ==> o.error == ServerSideExportError(ExportTooSoon) && lastSse == old(lastSse)
      ensures o.Pass? ==> lastSse == Some(now)
    {
      var last := lastSse;
      if last.Some? {
        if UnderOneSecond(last.value, now) && !okVersion {
          return Fail(ServerSideExportError(ExportTooSoon));
        }
      }
      lastSse := Some(now);
      o := Pass;
    }

    /** `_check_sse_crash_prevention`: the timing check, then the empty-result check. */
    method CheckSseCrashPrevention(env: SseEnv) returns (o: Outcome)
      modifies this
      ensures var ok := VersionSupported(env.probe, SseCrashVersions);
        o == match Timing(old(lastSse), ok, env.now)
             case Fail(e) => Fail(e)
             case Pass => EmptyRs(ok, env.rowCount)
      ensures lastSse == LastAfter(old(lastSse), env.(platform65 := true))
    {
      var ok := VersionSupportCheck(env.probe, SseCrashVersions);
      o := CheckSseTiming(ok, env.now);
      if o.Fail? {
        return;
      }
      if !ok && env.rowCount == 0 {
        o := Fail(ServerSideExportError(EmptyResultSet));
      }
    }

    /**
     * `get_result_data_sse`: runs every check before any export is started, sends the
     * export request the plan names, and returns what the poller collected.
     */
    method GetResultDataSse(opts: SseOptions, env: SseEnv, start: ExportRequest -> string,
                            poll: string -> PollReport)
      returns (r: Result<ExportData>, sent: Option<ExportRequest>)
      modifies this
      ensures var plan := ExportPlan(old(lastSse), opts, env);
        && sent == (if plan.Ok? then Some(plan.value) else None)
        && r == (if plan.Ok? then Collect(FormatOf(opts), plan.value, start, poll) else Err(plan.error))
      ensures lastSse == LastAfter(old(lastSse), env)
    {
      sent := None;
      var format := FormatOf(opts);
      if !env.platform65 {
        return Err(UnsupportedVersionError), None;
      }
      var crash := CheckSseCrashPrevention(env);
      if crash.Fail? {
        return Err(crash.error), None;
      }
      var code := ResolveSseFormat(format, env.probe);
      if code.Err? {
        return Err(code.error), None;
      }
      var req := ExportRequest(code.value, NonEmpty(opts.leading), NonEmpty(opts.trailing));
      sent := Some(req);
      var exportId := start(req);
      var report := poll(exportId);
      if !report.success {
        return Err(ServerSideExportError(PollerFailed(report.status))), sent;
      }
      var data := report.data;
      if Lower(format) == "xml_obj" {
        if data == [] {
          r := Ok(Text(report.status));
        } else {
          r := Ok(ParsedXml(data));
        }
      } else {
        r := Ok(Text(data));
      }
    }
  }
}
