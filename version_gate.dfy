/**
 * The platform-version gate (`_version_support_check`) and the export-format
 * resolution that sits behind it (`_resolve_sse_format`, `_check_sse_format_support`).
 * Versions are compared as Python strings, so "6.5.314.10000" sorts below
 * "6.5.314.4300".
 */
module VersionGate {
  import opened Errors
  import opened PyStrings

  /**
   * What the session knows of the server version: the cached value and the value a
   * forced refresh would fetch; None is a version the session considers invalid.
   */
  datatype VersionProbe = VersionProbe(cached: Option<string>, refreshed: Option<string>)

  /** The version the check compares: the cached one, or the refreshed one when the cache is invalid. */
  function KnownVersion(p: VersionProbe): Option<string> {
    if p.cached.Some? then p.cached else p.refreshed
  }

  /** The server version is `>=` every entry. */
  predicate AtLeastAll(v: string, vmaps: seq<string>) {
    forall i :: 0 <= i < |vmaps| ==> AtLeast(v, vmaps[i])
  }

  predicate VersionSupported(p: VersionProbe, vmaps: seq<string>) {
    KnownVersion(p).Some? && AtLeastAll(KnownVersion(p).value, vmaps)
  }

  /**
   * `_version_support_check`: refreshes an invalid version once; False while it stays
   * invalid, otherwise False as soon as one entry is above the server version.
   */
  method VersionSupportCheck(p: VersionProbe, vmaps: seq<string>) returns (ok: bool)
    ensures ok <==> VersionSupported(p, vmaps)
  {
    ok := true;
    var version := p.cached;
    if version.None? {
      version := p.refreshed;
    }
    if version.None? {
      ok := false;
    } else {
      for i := 0 to |vmaps|
        invariant ok <==> forall j :: 0 <= j < i ==> AtLeast(version.value, vmaps[j])
      {
        if !AtLeast(version.value, vmaps[i]) {
          ok := false;
        }
      }
    }
  }

  /**
   * With a valid version the check passes an empty list, and it passes a list exactly
   * when it passes its largest entry: it is one comparison against the maximum.
   */
  lemma {:induction false} SupportedIffAtLeastMax(v: string, vmaps: seq<string>, m: nat)
    requires m < |vmaps|
    requires forall i :: 0 <= i < |vmaps| ==> AtLeast(vmaps[m], vmaps[i])
    ensures AtLeastAll(v, vmaps) <==> AtLeast(v, vmaps[m])
  {
    if AtLeast(v, vmaps[m]) {
      forall i | 0 <= i < |vmaps|
        ensures AtLeast(v, vmaps[i])
      {
        if Less(v, vmaps[i]) {
          if vmaps[i] == vmaps[m] {
          } else {
            LessTotal(vmaps[i], vmaps[m]);
            LessTransitive(v, vmaps[i], vmaps[m]);
          }
        }
      }
    }
  }

  /** A server version that only extends a required version passes the check for it. */
  lemma ExtensionSupported(p: VersionProbe, required: string, suffix: string)
    requires KnownVersion(p) == Some(required + suffix)
    ensures VersionSupported(p, [required])
  {
    var v := required + suffix;
    assert v[..|required|] == required;
    AtLeastPrefix(v, |required|);
  }

  /** An invalid version fails every list, even the empty one. */
  lemma InvalidNeverSupported(p: VersionProbe, vmaps: seq<string>)
    requires p.cached.None? && p.refreshed.None?
    ensures !VersionSupported(p, vmaps)
  {
  }

  /** String order: a later build passes. */
  lemma LaterBuildSupported()
    ensures VersionSupported(VersionProbe(Some("6.5.314.4301"), None), ["6.5.314.4300"])
  {
    var v, r := "6.5.314.4301", "6.5.314.4300";
    assert v[..11] == r[..11] && r[11] < v[11];
    LessAfterCommonPrefix(r, v, 11);
    LessAsymmetric(r, v);
  }

  /** String order: an earlier build fails. */
  lemma EarlierBuildUnsupported()
    ensures !VersionSupported(VersionProbe(Some("6.5.314.4200"), None), ["6.5.314.4300"])
  {
    var v, r := "6.5.314.4200", "6.5.314.4300";
    assert v[..9] == r[..9] && v[9] < r[9];
    LessAfterCommonPrefix(v, r, 9);
    assert [r][0] == r && !AtLeast(v, r);
  }

  /** String order: a five-digit build sorts below a four-digit one and fails. */
  lemma FiveDigitBuildUnsupported()
    ensures !VersionSupported(VersionProbe(None, Some("6.5.314.10000")), ["6.5.314.4300"])
  {
    var v, r := "6.5.314.10000", "6.5.314.4300";
    assert v[..8] == r[..8] && v[8] < r[8];
    LessAfterCommonPrefix(v, r, 8);
    assert [r][0] == r && !AtLeast(v, r);
  }

  /** Two strings that agree on their first `k` characters are ordered by character `k`. */
  lemma {:induction false} LessAfterCommonPrefix(a: string, b: string, k: nat)
    requires k < |a| && k < |b| && a[..k] == b[..k] && a[k] < b[k]
    ensures Less(a, b)
    decreases k
  {
    if k > 0 {
      assert a[0] == a[..k][0] == b[..k][0] == b[0];
      assert a[1..][..k - 1] == a[..k][1..] == b[..k][1..] == b[1..][..k - 1];
      LessAfterCommonPrefix(a[1..], b[1..], k - 1);
    }
  }

  // ---------------------------------------------------------------------------
  // Export formats

  /** `SSE_FORMAT_MAP`: name, numeric alias, API integer. */
  const SseFormatMap: seq<(string, string, int)> :=
    [("csv", "0", 0), ("xml", "1", 1), ("xml_obj", "1", 1), ("cef", "2", 2)]

  /** `SSE_RESTRICT_MAP[1]` and `SSE_RESTRICT_MAP[2]`. */
  const SseRestrictVersions: seq<string> := ["6.5.314.4300"]

  /** `SSE_CRASH_MAP`. */
  const SseCrashVersions: seq<string> := ["6.5.314.4300"]

  /** The API integer of the first row whose name or alias equals `key`. */
  function FirstFormatMatch(rows: seq<(string, string, int)>, key: string): Option<int> {
    if rows == [] then None
    else if key == rows[0].0 || key == rows[0].1 then Some(rows[0].2)
    else FirstFormatMatch(rows[1..], key)
  }

  /** `SSE_RESTRICT_MAP.get(code)`. */
  function RestrictedVersions(code: int): Option<seq<string>> {
    if code == 1 || code == 2 then Some(SseRestrictVersions) else None
  }

  /** `_check_sse_format_support`. */
  function CheckSseFormatSupport(code: int, p: VersionProbe): Outcome {
    match RestrictedVersions(code)
    case None => Pass
    case Some(vmaps) => if VersionSupported(p, vmaps) then Pass else Fail(UnsupportedVersionError)
  }

  /** `_resolve_sse_format`: table lookup on the lower-cased name, then the format's version gate. */
  function ResolveSseFormat(format: string, p: VersionProbe): Result<int> {
    match FirstFormatMatch(SseFormatMap, Lower(format))
    case None => Err(PytanError(UnknownSseFormat(format)))
    case Some(code) =>
      match CheckSseFormatSupport(code, p)
      case Fail(e) => Err(e)
      case Pass => Ok(code)
  }

  /**
   * Case-insensitive names: 'csv' and '0' give 0 whatever the version; 'xml', 'xml_obj'
   * and '1' give 1, and 'cef' and '2' give 2, when the server is at least 6.5.314.4300
   * and raise an unsupported-version error otherwise; any other name raises.
   */
  lemma ResolveSseFormatMeaning(format: string, p: VersionProbe)
    ensures var name, r := Lower(format), ResolveSseFormat(format, p);
      && (name == "csv" || name == "0" ==> r == Ok(0))
      && (name == "xml" || name == "xml_obj" || name == "1" ==>
            r == if VersionSupported(p, ["6.5.314.4300"]) then Ok(1) else Err(UnsupportedVersionError))
      && (name == "cef" || name == "2" ==>
            r == if VersionSupported(p, ["6.5.314.4300"]) then Ok(2) else Err(UnsupportedVersionError))
      && (name !in {"csv", "0", "xml", "xml_obj", "1", "cef", "2"} ==> r == Err(PytanError(UnknownSseFormat(format))))
  {
    var name := Lower(format);
    var rows := SseFormatMap;
    if name !in {"csv", "0", "xml", "xml_obj", "1", "cef", "2"} {
      calc {
        FirstFormatMatch(rows, name);
        FirstFormatMatch(rows[1..], name);
        FirstFormatMatch(rows[2..], name);
        FirstFormatMatch(rows[3..], name);
        FirstFormatMatch(rows[4..], name);
        None;
      }
    }
  }

  /** Upper-case spellings resolve like the lower-case ones. */
  lemma UpperCaseNamesResolve(p: VersionProbe)
    ensures ResolveSseFormat("CSV", p) == Ok(0)
    ensures ResolveSseFormat("XML_OBJ", p) == ResolveSseFormat("xml", p)
  {
    assert Lower("CSV") == "csv";
    assert Lower("XML_OBJ") == "xml_obj";
    assert Lower("xml") == "xml";
    ResolveSseFormatMeaning("CSV", p);
    ResolveSseFormatMeaning("XML_OBJ", p);
    ResolveSseFormatMeaning("xml", p);
  }
}
