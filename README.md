# pytan core, modelled in Dafny

This project models the decision logic of pytan's `Handler` (pytan/handler.py) and of the
`WsdlParser` in the code generator that builds the `tanium_ng` object classes
(BUILD/tanium_ng/build_tanium_ng.py). The model covers:

- **Object retrieval** (`_get_objects`). The filtered path runs one lookup per search group
  and unions the results without duplicates. The unfiltered path fetches everything and
  narrows on the client (`_fixit_broken_filter`). The model also covers the request reshaping
  for server defects (`_fixit_single`, `_fixit_group_id`) and the cardinality check
  (`_check_limits`).
- **The platform-version gate** (`_version_support_check`). It compares version strings with
  Python's string order, code point by code point.
- **Server-side export.** The format lookup (`_resolve_sse_format`,
  `_check_sse_format_support`) and the pre-flight checks of `get_result_data_sse`. The
  handler's one piece of state, the time of the last export, is the field of the class
  `ServerSideExport.Handler`.
- **Question and action entry points.** The decisions inside `ask_manual`, `ask_saved` (its
  refresh loop), `ask_parsed` (the 1-based picker), `approve_saved_action` and `stop_action`.
- **Deletion.** The guard chain of `_delete_objects`, behind the `delete_*` wrappers.
- **Report path** (`write_file`). The directory and file name it composes, with the POSIX
  rules of `os.path`.
- **The generator's type classification.** Which complex types get a class; how a type's
  elements split into simple, complex and list attributes; the SOAP tag of a type; the text
  blocks of the class template; the version strings read from the schema text.

Every call into the SOAP session, the pollers, the clock and the working directory is a
parameter: a function value such as `find`, `build`, `delete`, `add`, `start`, `poll`,
`capcase` or `substitute`, or a plain input such as `now`, `cwd`, a `VersionProbe`, the
refresh rounds of `ask_saved` or a poller outcome.

Behaviours of the code worth noting:

- `_version_support_check` requires the server version to be `>=` **every** entry. It
  compares as strings, not as dotted integers, so "6.5.314.10000" is below "6.5.314.4300"
  (`VersionGate.FiveDigitBuildUnsupported`).
- When no `sse_format` is given, the code uses 'xml_obj' (pytan/handler.py:755). Its
  docstring describes the formats but the default that takes effect is 'xml_obj', which needs
  a 6.5.314.4300 server (`ServerSideExport.DefaultFormatNeedsNewServer`).
- `_get_el_listtype` tests the prefix "xsd" without a colon (`WsdlGen.ListTypeWithoutColon`).
- `stop_action` calls `self.export_obj`, which `Handler` does not define, when the action did not stop (see Findings).

Modules: `Errors`, `PyStrings` (Python string order, `lower`, `strip`, `startswith`),
`SeqUtil` (first-seen union), `Retrieval`, `VersionGate`, `ServerSideExport`, `Questions`,
`Deletion`, `ReportPath`, `WsdlGen`.

## Model

| member | source | states |
|---|---|---|
| SeqUtil.AddNew | pytan/handler.py:1179-1185 | appending only the items not yet present keeps the old prefix, adds exactly the new members, and never creates a duplicate |
| SeqUtil.UnionAll | pytan/handler.py:1161-1185 | the union of the per-group lists has no duplicates and holds exactly the objects found by some group |
| SeqUtil.UnionAllFirstSeen | pytan/handler.py:1161-1185 | the group-by-group union equals one first-seen pass over all results concatenated |
| SeqUtil.AddNewConcat | pytan/handler.py:1179-1185 | appending two lists one after the other is the same as appending their concatenation |
| Retrieval.IdGroups | pytan/handler.py:1205-1226 | one group object per `id` filter that has a value, in filter order; empty exactly when no such filter exists |
| Retrieval.IdGroupsInOrder | pytan/handler.py:1205-1226 | the groups correspond one to one, in order, to the `id` filters that have a value, each group holding that filter's id |
| Retrieval.FixitGroupId | pytan/handler.py:1205-1226 | with the flag set, the request's list holds the id groups and the cache filters are removed exactly when an id filter exists; without the flag, the request is unchanged |
| Retrieval.Find | pytan/handler.py:1144-1150 | the session is asked exactly once, with the request the fixups shape |
| Retrieval.FindRequestShape | pytan/handler.py:1188-1226 | the group-id fix overrides the single-object fix; with an id filter no cache filters are sent; otherwise the filters go out unchanged and the object is the bare item exactly when `FIXIT_SINGLE` is set |
| Retrieval.AppendNew | pytan/handler.py:1179-1185 | the append-unless-present loop computes the first-seen union `AddNew` |
| Retrieval.FindFilter | pytan/handler.py:1152-1186 | the result is the duplicate-free union, in first-seen order, of the per-group lookups |
| Retrieval.MatchesOf | pytan/handler.py:1246-1249 | the matches of one subspec are exactly the fetched objects whose field equals the value |
| Retrieval.SweepMeaning | pytan/handler.py:1228-1263 | the narrowing raises `AttributeError` exactly when some subspec names a missing attribute, naming the first such subspec; otherwise it returns, each once, the fetched objects matching at least one subspec (OR, even within a group) |
| Retrieval.SweepErrMeaning | pytan/handler.py:1242-1249 | the error half of `SweepMeaning` |
| Retrieval.SweepOkMeaning | pytan/handler.py:1242-1257 | the success half of `SweepMeaning` |
| Retrieval.SweepGroup | pytan/handler.py:1244-1257 | the inner loop over one group's subspecs continues the sweep exactly |
| Retrieval.FixitBrokenFilter | pytan/handler.py:1228-1263 | the nested loops compute the sweep over all groups' subspecs in order; without the flag the input is returned unchanged |
| Retrieval.LimitsOutcomeMeaning | pytan/handler.py:1265-1298 | the check passes exactly when every given limit holds; the messages run min, max, exact up to and including the first failure; on success the list comes back unchanged, except that `limit_exact == 1` with one item yields the item |
| Retrieval.ExactOneCollapses | pytan/handler.py:1265-1298 | with `limit_exact == 1` the check either fails or returns the single item itself |
| Retrieval.CheckLimits | pytan/handler.py:1265-1298 | the loop over the three limits computes the limit outcome |
| Retrieval.GetObjects | pytan/handler.py:1113-1142 | dispatch to the filtered or the unfiltered path, then the limit check; a narrowing error propagates; a bare object from the unfiltered lookup with no search groups and no limits is returned as it is |
| Retrieval.GetObjectsShape | pytan/handler.py:1113-1142 | a single object comes back only from `limit_exact == 1` over a one-item list or as the bare object of an unfiltered lookup with no search groups and no limits; a list that comes back satisfies every limit; whenever the lookups yield a list, the call succeeds exactly when that list satisfies the limits |
| Retrieval.FilteredPathIsFirstSeenUnion | pytan/handler.py:1120-1128 | with search groups and working filters, the objects are the first-seen union of the per-group lookups |
| Retrieval.BrokenPathKeepsMatches | pytan/handler.py:1120-1128 | with search groups and broken filters, the objects are those fetched without filters that match some (field, value) of some group, each once |
| VersionGate.VersionSupportCheck | pytan/handler.py:1399-1432 | true exactly when the version, refreshed once if invalid, is valid and `>=` every entry under string order |
| VersionGate.SupportedIffAtLeastMax | pytan/handler.py:1429-1431 | passing every entry is the same as passing the largest entry |
| VersionGate.ExtensionSupported | pytan/handler.py:1429-1431 | a version that extends the required one passes |
| VersionGate.InvalidNeverSupported | pytan/handler.py:1420-1427 | a version still invalid after the refresh fails, even for an empty list |
| VersionGate.LaterBuildSupported | pytan/handler.py:1429-1431 | 6.5.314.4301 passes 6.5.314.4300 |
| VersionGate.EarlierBuildUnsupported | pytan/handler.py:1429-1431 | 6.5.314.4200 fails 6.5.314.4300 |
| VersionGate.FiveDigitBuildUnsupported | pytan/handler.py:1429-1431 | 6.5.314.10000 fails 6.5.314.4300 because the comparison is on strings |
| VersionGate.ResolveSseFormatMeaning | pytan/handler.py:1458-1490 | case-insensitive: 'csv'/'0' give 0 on any version; 'xml'/'xml_obj'/'1' give 1 and 'cef'/'2' give 2 on a 6.5.314.4300 server and raise an unsupported-version error otherwise; any other name raises `PytanError` |
| VersionGate.UpperCaseNamesResolve | pytan/handler.py:1471 | upper-case names resolve like lower-case ones |
| ServerSideExport.TimingAsWrittenRefusesNextDay | pytan/handler.py:1524-1528 | as written, an export exactly one day after the last is refused as too soon; the corrected check lets it through |
| ServerSideExport.TimingAgreesWithinADay | pytan/handler.py:1524-1528 | within a day of the last export, the check as written and the corrected check agree |
| ServerSideExport.ExportPlanMeaning | pytan/handler.py:760-783 | an export request is built exactly when the platform supports export, the timing and empty-result checks pass (both waived on an ok version) and the format resolves; it names one of the formats 0, 1 or 2, and carries leading and trailing text exactly when they are non-empty |
| ServerSideExport.PreflightOrder | pytan/handler.py:1511-1512 | on an old server the timing check fires before the empty-result check, and the refused call leaves the recorded time unchanged |
| ServerSideExport.OkVersionSkipsCrashPrevention | pytan/handler.py:1499-1548 | on an ok version only the format decides, and the time is always recorded |
| ServerSideExport.DefaultFormatNeedsNewServer | pytan/handler.py:755 | with no options the request asks for format 1 ('xml_obj') with no leading or trailing text |
| ServerSideExport.Handler.constructor | pytan/handler.py:1523 | a new handler has no recorded export time |
| ServerSideExport.Handler.CheckSseTiming | pytan/handler.py:1514-1529 | refuses exactly when the version is not ok and the last export started under a second ago, leaving the field unchanged; otherwise records `now` |
| ServerSideExport.Handler.CheckSseCrashPrevention | pytan/handler.py:1499-1512 | runs the timing check, then the empty-result check, both keyed on the crash-map version check |
| ServerSideExport.Handler.GetResultDataSse | pytan/handler.py:705-811 | no export is started unless every pre-flight check passes; the request sent is the planned one; the result is the poller's data, or the status when 'xml_obj' data is empty, or a poller failure |
| Questions.AskManual | pytan/handler.py:287-302 | without `get_results` there is no poller outcome and no result data; result info is always fetched for the added question |
| Questions.FirstAcceptingMeaning | pytan/handler.py:343-376 | the loop stops at the first round whose question has the same text and a larger id; it finds nothing only when no round qualifies |
| Questions.RefreshLoop | pytan/handler.py:343-376 | the loop's exit is the first accepting round, and it returns that round's saved question and question |
| Questions.AskSaved | pytan/handler.py:312-413 | an empty search raises; a lookup error propagates; `row_count == 0` forces a refresh; the poller runs only when refreshing, and a refreshed answer is a newer question with the same text |
| Questions.NoRefreshNoPoller | pytan/handler.py:388-391 | without a refresh the poller never runs and the answer is the current question |
| Questions.Pick | pytan/handler.py:490-529 | 0 and indexes outside `1-n..n` raise `PickerError`; positive pickers are 1-based, non-positive ones count from the end |
| Questions.MinusOnePicksSecondToLast | pytan/handler.py:521-529 | picker -1 selects the second-to-last parse result |
| Questions.AskParsed | pytan/handler.py:447-561 | needs a 6.5 platform; empty parse results raise `ParseJobError`; a bad picker raises; otherwise the picked question is added and polled and read only when results are wanted |
| Questions.ApproveSavedAction | pytan/handler.py:563-597 | an empty search raises and a failed lookup propagates; otherwise the result is what the session's `add` returns for the approval with the found id and `approved_flag = 1` |
| Questions.StopAction | pytan/handler.py:599-640 | an empty search raises; otherwise the stop is returned exactly when the re-read action reports stopped, and `PytanError` is raised otherwise (the intended behaviour, see Findings) |
| Questions.StopActionAsWrittenRaisesAttributeError | pytan/handler.py:633-639 | as written, an action that does not report stopped raises `AttributeError` for `export_obj` where the intended code raises `PytanError`; on every other input the two agree |
| Questions.StopActionUnsetFlagExample | pytan/handler.py:633-639 | an action whose `stopped_flag` stays unset gives `AttributeError` as written and `PytanError` as intended |
| Deletion.DeleteObjects | pytan/handler.py:1349-1387 | refuses the NO_DELETE types, an empty search, nothing found, `export_before_delete` and an unset `really_delete`, in that order; otherwise deletes each found object once, in order |
| Deletion.RefusedBeforeLookup | pytan/handler.py:1356-1359 | a type that cannot be deleted is refused whatever the lookup would return |
| Deletion.NoDeletionWithoutConsent | pytan/handler.py:1380-1387 | nothing is deleted unless `really_delete` is set |
| ReportPath.SplitExtMeaning | pytan/handler.py:1101 | stem and extension concatenate to the name; an extension is a dot followed by dot-free, slash-free text; a name of dots only has none |
| ReportPath.SplitExtFindsExtension | pytan/handler.py:1101 | a dot in the final component after a character other than a dot yields a non-empty extension: the text from the last dot on |
| ReportPath.SplitExtOfReportCsv | pytan/handler.py:1101 | "report.csv" splits into "report" and ".csv" |
| ReportPath.ReportNameOfReportCsv | pytan/handler.py:1098-1102 | with prefix "a_" and postfix "_b", "out/report.csv" is written as "a_report_b.csv" |
| ReportPath.ReportNameKeepsBasename | pytan/handler.py:1098-1102 | without prefix or postfix the file keeps the base name it was given |
| ReportPath.ReportNameShape | pytan/handler.py:1098-1102 | the name is prefix, stem, postfix, extension, with the extension at the end |
| ReportPath.ReportDirPriority | pytan/handler.py:1080-1091 | `report_dir` wins over the report file's directory, and the working directory is used only when neither gives one |
| ReportPath.ReportNameSlashFree | pytan/handler.py:1098-1102 | the composed name has no slash unless the prefix or postfix brought one |
| ReportPath.WriteFilePathInReportDir | pytan/handler.py:1078-1105 | the report path starts with the report directory and its base name is the composed name |
| WsdlGen.FindTypes | BUILD/tanium_ng/build_tanium_ng.py:229-239 | the result is strictly sorted and holds exactly the type names not in `EXCLUDE_TYPES` |
| WsdlGen.FindTypesIsSortedSet | BUILD/tanium_ng/build_tanium_ng.py:229-239 | the result is the unique strictly sorted list of those names, so it equals `sorted(set(...))` |
| WsdlGen.StrictlySortedNoDup | BUILD/tanium_ng/build_tanium_ng.py:235 | the sorted type list never holds a name twice |
| WsdlGen.AttrsPartition | BUILD/tanium_ng/build_tanium_ng.py:246-277 | the simple, complex and list selections together hold each element exactly as often as the type does |
| WsdlGen.ClassesExclusive | BUILD/tanium_ng/build_tanium_ng.py:246-277 | every element passes exactly one of the three filters |
| WsdlGen.MapAttrs | BUILD/tanium_ng/build_tanium_ng.py:252 | the (name, type) pairs are built in order, and the first element whose lookup raises stops the whole list |
| WsdlGen.XsdLookupMeaning | BUILD/tanium_ng/build_tanium_ng.py:64-68 | `XSD_MAP` knows exactly xsd:int, xsd:string and xsd:long and maps them to int or text_type; any other key raises `KeyError` |
| WsdlGen.SimpleAttrsOk | BUILD/tanium_ng/build_tanium_ng.py:246-253 | the simple attributes are computed exactly when every simple element has a mapped xsd type |
| WsdlGen.SimpleAttrsTypes | BUILD/tanium_ng/build_tanium_ng.py:246-253 | every simple attribute is paired with int or text_type |
| WsdlGen.UnmappedSimpleTypeRaises | BUILD/tanium_ng/build_tanium_ng.py:252 | an xsd:boolean element raises `KeyError` |
| WsdlGen.FilterKeepsOrder | BUILD/tanium_ng/build_tanium_ng.py:246-277 | each selection of elements keeps exactly the elements that pass its test, in their original order |
| WsdlGen.GetComplexAttrs | BUILD/tanium_ng/build_tanium_ng.py:255-262 | one (name, raw type) pair per complex element, in order |
| WsdlGen.ListTypeWithoutColon | BUILD/tanium_ng/build_tanium_ng.py:264-269 | a list type starting with "xsd" and no colon is still looked up in `XSD_MAP` |
| WsdlGen.FirstTyped | BUILD/tanium_ng/build_tanium_ng.py:279-287 | finds the first element of the given type, and nothing only when no element has that type |
| WsdlGen.SoapTagFallback | BUILD/tanium_ng/build_tanium_ng.py:279-287 | the name of the first sequence element of the type is the tag; with no sequence usage, the name of the first 'all' element of the type; a type used nowhere is its own tag |
| WsdlGen.FileNamesDistinct | BUILD/tanium_ng/build_tanium_ng.py:207-209 | the file name ends in ".py" and distinct types get distinct files |
| WsdlGen.SearchWsdlContents | BUILD/tanium_ng/build_tanium_ng.py:301-313 | raises exactly when the pattern does not match; otherwise returns the capture stripped of surrounding whitespace |
| WsdlGen.StripIdempotent | BUILD/tanium_ng/build_tanium_ng.py:309 | a value read from the schema text has no surrounding whitespace left |
| WsdlGen.SeparatorsBreakOnce | BUILD/tanium_ng/build_tanium_ng.py:335-352 | each block separator starts exactly one new line |
| WsdlGen.BlockLines | BUILD/tanium_ng/build_tanium_ng.py:333-364 | a block has one line per list entry, and an empty list yields exactly one "# no KEY defined in console.wsdl" line |
| WsdlGen.TemplateKeysDisjoint | BUILD/tanium_ng/build_tanium_ng.py:315-331 | none of the keys `get_type_code` fills is one the general substitutions provide |
| WsdlGen.FilledDictBlocks | BUILD/tanium_ng/build_tanium_ng.py:333-372 | after the general substitutions are merged, the dictionary has the base, block and general keys; an empty list's blocks are the placeholder line; `desc` names the SOAP tag; and the general entries are kept |
| WsdlGen.GetTypeCode | BUILD/tanium_ng/build_tanium_ng.py:333-372 | the dictionary filled key by key is the filled dictionary plus `code`, the template substituted with it |
| WsdlGen.TypeInfoMeaning | BUILD/tanium_ng/build_tanium_ng.py:182-205 | the entries are computed exactly when the simple and list lookups succeed, and a simple-type error takes precedence; the file name is `type_name + '.py'`, and the three attribute lists together are as long as the element list |
| WsdlGen.ParseType | BUILD/tanium_ng/build_tanium_ng.py:182-205 | the entries in order, then `get_type_code` |

## Left out

- Transport: the SOAP session, the question and export pollers, `build_cachefilterlist`, `build_question`, `capcase` and `from_sse_xml` are parameters. The pollers contribute only a success flag, a status and data.
- Retrieval.GetObjects: does not model a caller-supplied `obj` keyword.
- Retrieval.GetObjects: a bare object from the unfiltered lookup is returned as it is only with no search groups and no limits; with limits (`len()` of the object) or with search groups (iteration over it in `_fixit_broken_filter`) the behaviour depends on the `tanium_ng` object classes, which are not part of this model, and the model treats it as a one-item list.
- VersionGate.VersionSupportCheck: the server version is read once (the probe); the source calls `get_server_version` once per entry (pytan/handler.py:1430), and the model assumes it does not change between those calls.
- Retrieval.GetObjects: `r in result` is datatype equality on the object's string fields, and the list class's `_SEARCH_SPECS` attribute is not kept.
- ServerSideExport.Handler.GetResultDataSse: does not model `shrink_obj`, the result-info overlay given to `from_sse_xml`, or integer format values.
- ServerSideExport.Handler.CheckSseCrashPrevention: the result-info call of the empty-result check is the input `rowCount`.
- ServerSideExport.Handler.CheckSseTiming: the two clock readings are one `now` in whole seconds, so "under a second" is `now == last`.
- Questions.AskSaved: the `while True` loop runs over a finite sequence of refresh rounds. Running out of rounds is the outcome `StillRefreshing`, and sleeping is not modelled.
- Questions.AskManual: building the question and adding it happen outside the model; the added question is an input.
- Questions.StopAction: the add and find calls are parameters.
- Deletion.DeleteObjects: a getter that returns one bare object instead of a list is not modelled; the getter returns a list or an error.
- ReportPath.WriteFilePath: the filesystem side is left out (`makedirs`, opening and writing the file). `get_now()` and `os.getcwd()` are inputs.
- `export` (pytan/handler.py:1015-1052) dispatches by reflection over method names, so it is left out.
- Logging, help text, and the patching of the handler into global classes are left out.
- WsdlGen: XML parsing and XPath are left out; elements arrive as records, and the two SOAP-tag searches arrive as the sequence and 'all' elements.
- WsdlGen.SearchWsdlContents: the regular-expression match is its result, the first capture group or nothing.
- WsdlGen.GetTypeCode: `string.Template` substitution is the parameter `substitute`. The non-string entries of the type dictionary (element lists, attribute lists) are not kept in the string map.
- WsdlGen: `WsdlParser.__init__`, `general_subs` (its keys are `GeneralKeys`) and `write_tanium_ng` (backup, move, write) are left out.
- PyStrings.Lower: ASCII only. No non-ASCII character lower-cases into one of the format names, so format resolution is unaffected.

## Findings

| source | as written | input that shows it | evidently intended | confidence | as-written member | corrected member |
|---|---|---|---|---|---|---|
| pytan/handler.py:1524-1528 | `_check_sse_timing` refuses when `(now - last).seconds == 0`; `timedelta.seconds` leaves out whole days | last export at t, next export at t + 86400 s (exactly one day later), on a server below 6.5.314.4300: refused as "wait at least one second" | refuse only when the last export started less than one second ago | not executed | ServerSideExport.TimingAsWrittenRefusesNextDay | ServerSideExport.Handler.CheckSseTiming |
| pytan/handler.py:636-639 | the not-stopped branch of `stop_action` formats its message with `self.export_obj(a_obj_after, 'json')`; `Handler` defines no `export_obj` | a non-empty search whose action re-reads with `stopped_flag` 0 or unset: `AttributeError` instead of the `PytanError` the branch builds | raise `PytanError` saying the action did not stop | not executed | Questions.StopActionAsWrittenRaisesAttributeError | Questions.StopAction |
