/**
 * The decision logic of the question and action entry points: `ask_manual`,
 * `ask_saved` (with its refresh loop), `ask_parsed` (with its 1-based picker),
 * `approve_saved_action` and `stop_action`. Every server call is an input: the
 * lookup results, the refresh rounds the server goes through, and the poller outcome.
 */
module Questions {
  import opened Errors

  datatype Question = Question(id: int, queryText: string)

  /** A saved question and the question it currently points to. */
  datatype SavedQuestion = SavedQuestion(id: int, question: Question)

  /**
   * What one refresh round observes: the saved question looked up again and the
   * question it then points to.
   */
  datatype RefreshRound = RefreshRound(saved: SavedQuestion, latest: Question)

  /**
   * The result store: the saved question (for `ask_saved`), the question, the poller
   * outcome (None when the poller was not run), the question whose result data was
   * fetched (None when not fetched) and the question whose result info was fetched.
   */
  datatype Bundle = Bundle(
    saved: Option<SavedQuestion>,
    question: Question,
    pollerResult: Option<bool>,
    resultDataOf: Option<Question>,
    resultInfoOf: Question)

  /** How `ask_saved` ends; it keeps refreshing while no round is accepted. */
  datatype AskOutcome = Answered(bundle: Bundle) | Raised(error: Error) | StillRefreshing

  /** The bundle both `ask_manual` and `ask_saved` return once the question is settled. */
  function Finish(saved: Option<SavedQuestion>, q: Question, runPoller: bool, getResults: bool,
                  pollerOk: bool): Bundle
  {
    Bundle(saved, q,
           if getResults && runPoller then Some(pollerOk) else None,
           if getResults then Some(q) else None,
           q)
  }

  /**
   * `ask_manual`: the added question is always polled and read when results are
   * wanted; without results there is no poller outcome and no result data. Result info
   * is fetched for the added question in both cases.
   */
  function AskManual(added: Question, getResults: bool, pollerOk: bool): (b: Bundle)
    ensures b.saved == None && b.question == added && b.resultInfoOf == added
    ensures getResults <==> b.resultDataOf.Some?
    ensures getResults <==> b.pollerResult.Some?
    ensures b.resultDataOf.Some? ==> b.resultDataOf.value == added
    ensures b.pollerResult.Some? ==> b.pollerResult.value == pollerOk
  {
    Finish(None, added, true, getResults, pollerOk)
  }

  // ---------------------------------------------------------------------------
  // ask_saved

  /** A round is accepted when the question has the same text and a strictly larger id. */
  predicate Accepts(q: Question, nq: Question) {
    nq.queryText == q.queryText && nq.id > q.id
  }

  /** The first accepted round, if any. */
  function FirstAccepting(q: Question, rounds: seq<RefreshRound>): (k: Option<nat>)
    ensures k.Some? ==> k.value < |rounds|
  {
    if rounds == [] then None
    else if Accepts(q, rounds[0].latest) then Some(0)
    else match FirstAccepting(q, rounds[1..])
      case None => None
      case Some(k) => Some(k + 1)
  }

  /**
   * The search stops at the first round whose question has the original text and a
   * larger id; it finds nothing only when no round does.
   */
  lemma {:induction false} FirstAcceptingMeaning(q: Question, rounds: seq<RefreshRound>)
    ensures var k := FirstAccepting(q, rounds);
      && (k.None? <==> forall j :: 0 <= j < |rounds| ==> !Accepts(q, rounds[j].latest))
      && (k.Some? ==> k.value < |rounds| && Accepts(q, rounds[k.value].latest)
                      && forall j :: 0 <= j < k.value ==> !Accepts(q, rounds[j].latest))
    decreases |rounds|
  {
    if rounds != [] && !Accepts(q, rounds[0].latest) {
      FirstAcceptingMeaning(q, rounds[1..]);
      assert forall j :: 0 < j < |rounds| ==> rounds[j] == rounds[1..][j - 1];
    }
  }

  /** The refresh loop of `ask_saved`, run over the rounds the server goes through. */
  method RefreshLoop(q: Question, sq: SavedQuestion, rounds: seq<RefreshRound>)
    returns (accepted: Option<nat>, lastSaved: SavedQuestion, newQ: Question)
    ensures accepted == FirstAccepting(q, rounds)
    ensures accepted.Some? ==>
      && accepted.value < |rounds|
      && lastSaved == rounds[accepted.value].saved
      && newQ == rounds[accepted.value].latest
    ensures accepted.None? ==> newQ == q && lastSaved == (if rounds == [] then sq else rounds[|rounds| - 1].saved)
  {
    FirstAcceptingMeaning(q, rounds);
    accepted, lastSaved, newQ := None, sq, q;
    var i := 0;
    while i < |rounds|
      invariant 0 <= i <= |rounds|
      invariant forall j :: 0 <= j < i ==> !Accepts(q, rounds[j].latest)
      invariant lastSaved == if i == 0 then sq else rounds[i - 1].saved
      invariant newQ == q
    {
      lastSaved := rounds[i].saved;
      var nq := rounds[i].latest;
      if nq.queryText != q.queryText {
        // a different question now answers to this saved question: keep waiting
      } else if nq.id > q.id {
        accepted, newQ := Some(i), nq;
        break;
      }
      i := i + 1;
    }
  }

  /**
   * `ask_saved`: an empty search raises; the saved question must be found exactly once;
   * a result set with no rows forces a refresh; a refresh waits for a newer question
   * with the same text, and only then is the poller run.
   */
  method AskSaved(search: seq<string>, lookup: Result<SavedQuestion>, current: Question, rowCount: int,
                  refresh: bool, getResults: bool, rounds: seq<RefreshRound>, pollerOk: bool)
    returns (r: AskOutcome)
    ensures search == [] ==> r == Raised(PytanError(EmptySearch))
    ensures search != [] && lookup.Err? ==> r == Raised(lookup.error)
    ensures search != [] && lookup.Ok? && !(refresh || rowCount == 0) ==>
      r == Answered(Finish(Some(lookup.value), current, false, getResults, pollerOk))
    ensures search != [] && lookup.Ok? && (refresh || rowCount == 0) ==>
      r == match FirstAccepting(current, rounds)
           case None => StillRefreshing
           case Some(k) => Answered(Finish(Some(rounds[k].saved), rounds[k].latest, true, getResults, pollerOk))
    ensures r.Answered? && r.bundle.pollerResult.Some? ==> refresh || rowCount == 0
    ensures r.Answered? && (refresh || rowCount == 0) ==> Accepts(current, r.bundle.question)
    ensures r == StillRefreshing ==> forall j :: 0 <= j < |rounds| ==> !Accepts(current, rounds[j].latest)
  {
    FirstAcceptingMeaning(current, rounds);
    if search == [] {
      return Raised(PytanError(EmptySearch));
    }
    if lookup.Err? {
      return Raised(lookup.error);
    }
    var sq := lookup.value;
    var q := current;
    var doRefresh := refresh;
    if rowCount == 0 {
      doRefresh := true;
    }
    if doRefresh {
      var accepted, lastSaved, newQ := RefreshLoop(q, sq, rounds);
      if accepted.None? {
        return StillRefreshing;
      }
      sq, q := lastSaved, newQ;
    }
    r := Answered(Finish(Some(sq), q, doRefresh, getResults, pollerOk));
  }

  /**
   * Without a refresh (asked for or forced by an empty result set) the poller never
   * runs, and the answer is the question the saved question already points to.
   */
  lemma NoRefreshNoPoller(sq: SavedQuestion, current: Question, getResults: bool, pollerOk: bool)
    ensures var b := Finish(Some(sq), current, false, getResults, pollerOk);
      b.pollerResult == None && b.question == current && b.resultInfoOf == current
      && (b.resultDataOf.Some? <==> getResults)
  {
  }

  // ---------------------------------------------------------------------------
  // ask_parsed

  /**
   * `parse_job_results[picker - 1]` behind the `picker is 0` guard: 0 and indexes
   * outside the list raise a picker error; negative pickers count from the end.
   */
  function Pick<T>(results: seq<T>, picker: int): (r: Result<T>)
    ensures r.Ok? <==> picker != 0 && 1 - |results| <= picker <= |results|
    ensures r.Err? ==> r.error == PickerError
    ensures 1 <= picker <= |results| ==> r == Ok(results[picker - 1])
    ensures 1 - |results| <= picker <= 0 && picker != 0 ==> r == Ok(results[|results| + picker - 1])
  {
    if picker == 0 then Err(PickerError)
    else
      var index := picker - 1;
      if 0 <= index < |results| then Ok(results[index])
      else if -|results| <= index < 0 then Ok(results[|results| + index])
      else Err(PickerError)
  }

  /** Picker -1 is the second-to-last parse result, not the last. */
  lemma MinusOnePicksSecondToLast<T>(results: seq<T>)
    requires |results| >= 2
    ensures Pick(results, -1) == Ok(results[|results| - 2])
  {
  }

  /** A parse result, reduced to the question it proposes. */
  datatype ParseResult = ParseResult(question: Question)

  /** The result store of `ask_parsed`. */
  datatype ParsedBundle = ParsedBundle(
    parseResults: seq<ParseResult>,
    questionObject: Question,
    pollerSuccess: Option<bool>,
    resultsOf: Option<Question>)

  /**
   * `ask_parsed`: the platform must be 6.5; an empty parse raises a parse-job error;
   * the picked question is added (`add` returns the stored question) and polled and
   * read only when results are wanted.
   */
  function AskParsed(platform65: bool, parsed: seq<ParseResult>, picker: int, getResults: bool,
                     add: Question -> Question, pollerOk: bool): (r: Result<ParsedBundle>)
    ensures !platform65 ==> r == Err(UnsupportedVersionError)
    ensures platform65 && parsed == [] ==> r == Err(ParseJobError)
    ensures platform65 && parsed != [] && Pick(parsed, picker).Err? ==> r == Err(PickerError)
    ensures r.Ok? ==>
      && platform65 && parsed != [] && Pick(parsed, picker).Ok?
      && r.value.parseResults == parsed
      && r.value.questionObject == add(Pick(parsed, picker).value.question)
      && (r.value.pollerSuccess.Some? <==> getResults)
      && (r.value.resultsOf.Some? <==> getResults)
      && (getResults ==> r.value.resultsOf == Some(r.value.questionObject))
  {
    if !platform65 then Err(UnsupportedVersionError)
    else if parsed == [] then Err(ParseJobError)
    else match Pick(parsed, picker)
      case Err(e) => Err(e)
      case Ok(picked) =>
        var q := add(picked.question);
        Ok(ParsedBundle(parsed, q, if getResults then Some(pollerOk) else None, if getResults then Some(q) else None))
  }

  // ---------------------------------------------------------------------------
  // Actions

  datatype SavedAction = SavedAction(id: int)

  datatype SavedActionApproval = SavedActionApproval(id: int, approvedFlag: int)

  /**
   * `approve_saved_action`: builds an approval of the one saved action found, with the
   * flag set to 1, and returns what the session's `add` stores for it.
   */
  function ApproveSavedAction(search: seq<string>, lookup: Result<SavedAction>,
                              add: SavedActionApproval -> SavedActionApproval): (r: Result<SavedActionApproval>)
    ensures search == [] ==> r == Err(PytanError(EmptySearch))
    ensures search != [] && lookup.Err? ==> r == Err(lookup.error)
    ensures r.Ok? <==> search != [] && lookup.Ok?
    ensures r.Ok? ==> r.value == add(SavedActionApproval(lookup.value.id, 1))
  {
    if search == [] then Err(PytanError(EmptySearch))
    else match lookup
      case Err(e) => Err(e)
      case Ok(sa) =>
        var approval := SavedActionApproval(sa.id, 1);
        Ok(add(approval))
  }

  /** An action as the server reports it; `stoppedFlag` is None when the attribute is unset. */
  datatype Action = Action(id: int, stoppedFlag: Option<int>)

  /** An action-stop job for one action. */
  datatype ActionStop = ActionStop(id: int, action: Action)

  /** Python truthiness of `stopped_flag`. */
  predicate Stopped(a: Action) {
    a.stoppedFlag.Some? && a.stoppedFlag.value != 0
  }

  /**
   * `stop_action`: adds a stop job for the one action found (`add` returns the stored
   * job), then re-reads the action (`find`) and raises unless it now reports stopped.
   */
  function StopAction(search: seq<string>, lookup: Result<Action>, add: Action -> ActionStop,
                      find: Action -> Action): (r: Result<ActionStop>)
    ensures search == [] ==> r == Err(PytanError(EmptySearch))
    ensures search != [] && lookup.Err? ==> r == Err(lookup.error)
    ensures search != [] && lookup.Ok? ==>
      (r.Ok? <==> Stopped(find(lookup.value)))
      && (r.Ok? ==> r.value == add(lookup.value))
      && (r.Err? ==> r.error == PytanError(ActionNotStopped))
  {
    if search == [] then Err(PytanError(EmptySearch))
    else match lookup
      case Err(e) => Err(e)
      case Ok(before) =>
        var stop := add(before);
        var after := find(before);
        if after.stoppedFlag.Some? && after.stoppedFlag.value != 0 then Ok(stop)
        else Err(PytanError(ActionNotStopped))
  }

  /**
   * `stop_action` as written: the not-stopped branch formats its message with
   * `self.export_obj`, which `Handler` does not define, so the attribute lookup raises
   * before the `PytanError` is built.
   */
  function StopActionAsWritten(search: seq<string>, lookup: Result<Action>, add: Action -> ActionStop,
                               find: Action -> Action): Result<ActionStop>
  {
    if search == [] then Err(PytanError(EmptySearch))
    else match lookup
      case Err(e) => Err(e)
      case Ok(before) =>
        var stop := add(before);
        var after := find(before);
        if after.stoppedFlag.Some? && after.stoppedFlag.value != 0 then Ok(stop)
        else Err(AttributeError("export_obj"))
  }

  /**
   * An action that does not report stopped after the stop job makes the code as written
   * raise `AttributeError`, where the intended outcome is `PytanError`; on every other
   * input the two agree.
   */
  lemma StopActionAsWrittenRaisesAttributeError(search: seq<string>, lookup: Result<Action>,
                                                add: Action -> ActionStop, find: Action -> Action)
    ensures search != [] && lookup.Ok? && !Stopped(find(lookup.value)) ==>
      && StopActionAsWritten(search, lookup, add, find) == Err(AttributeError("export_obj"))
      && StopAction(search, lookup, add, find) == Err(PytanError(ActionNotStopped))
    ensures !(search != [] && lookup.Ok? && !Stopped(find(lookup.value))) ==>
      StopActionAsWritten(search, lookup, add, find) == StopAction(search, lookup, add, find)
  {
  }

  /** Action 1 with `stopped_flag` unset after the stop job: `AttributeError` as written. */
  lemma StopActionUnsetFlagExample()
    ensures var lookup, add, find := Ok(Action(1, None)), (a: Action) => ActionStop(7, a), (a: Action) => a;
      && StopActionAsWritten(["1"], lookup, add, find) == Err(AttributeError("export_obj"))
      && StopAction(["1"], lookup, add, find) == Err(PytanError(ActionNotStopped))
  {
  }
}
