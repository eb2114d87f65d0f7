/**
 * One run of the script: create the Garmin Connect client, log in, fetch the
 * body composition since 2000-01-01, build the rows, authorize to the
 * spreadsheet and overwrite the configured range with the rows. The calls
 * into the two services are inputs (their outcomes); the run is the trace of
 * what it does and how the process ends.
 */
module SyncRun {
  import opened Wrappers
  import opened BodyComposition
  import opened SheetCredentials

  /** The exceptions the client calls can raise; the first three are named by the script. */
  datatype GarminError =
    | ConnectionError(message: string)
    | AuthenticationError(message: string)
    | TooManyRequestsError(message: string)
    | OtherError

  datatype Step = Done | Raised(error: GarminError)

  /** The fitness-service side: outcomes of init, login and fetch, today's date, the local zone. */
  datatype Source = Source(
    init: Step,
    login: Step,
    fetched: Result<seq<Sample>, GarminError>,
    today: string,
    offset: int)

  /**
   * The spreadsheet side: token.pickle's content, what the refresh and the
   * flow would return (None: they raise), the configured target and whether
   * the update request raises.
   */
  datatype Destination = Destination(
    tokenFile: Option<Credential>,
    refreshed: Option<Credential>,
    granted: Option<Credential>,
    spreadsheetId: string,
    range: string,
    writeSucceeds: bool)

  datatype Event =
    | ClientInit
    | ClientLogin
    | Fetch(start: string, end: string)
    | Diagnostic(line: string)
    | TokenLoad
    | TokenRefresh
    | AuthorizationFlow
    | TokenSave(creds: Credential)
    | SheetUpdate(spreadsheetId: string, range: string, values: seq<Row>)

  /** Finished normally, stopped by `quit()`, or ended by an exception nobody catches. */
  datatype Exit = Finished | Quit | Crashed

  datatype RunResult = RunResult(trace: seq<Event>, exit: Exit)

  const FetchStart := "2000-01-01"

  /** The line printed when client init or login raises. */
  function ErrorLine(stage: string, e: GarminError): string {
    if e.OtherError? then "Unknown error occurred during Garmin Connect Client " + stage
    else "Error occurred during Garmin Connect Client " + stage + ": " + e.message
  }

  predicate Fetches(trace: seq<Event>) {
    exists i :: 0 <= i < |trace| && trace[i].Fetch?
  }

  predicate Writes(trace: seq<Event>) {
    exists i :: 0 <= i < |trace| && trace[i].SheetUpdate?
  }

  predicate SavesToken(trace: seq<Event>) {
    exists i :: 0 <= i < |trace| && trace[i].TokenSave?
  }

  /** The destination stage, given the complete list of rows. */
  function Sync(rows: seq<Row>, dst: Destination): (r: RunResult)
    ensures Writes(r.trace) <==>
      Resolve(dst.tokenFile, dst.refreshed, dst.granted).Authorized?
    ensures Writes(r.trace) ==>
      r.trace[|r.trace| - 1] == SheetUpdate(dst.spreadsheetId, dst.range, rows) &&
      forall i :: 0 <= i < |r.trace| - 1 ==> !r.trace[i].SheetUpdate?
    ensures SavesToken(r.trace) <==>
      Resolve(dst.tokenFile, dst.refreshed, dst.granted).Authorized? && Decide(dst.tokenFile).save
    ensures r.exit != Quit
  {
    var load := if dst.tokenFile.Some? then [TokenLoad] else [];
    var a := Resolve(dst.tokenFile, dst.refreshed, dst.granted);
    var renew := match a.action
      case UseCached => []
      case Refresh => [TokenRefresh]
      case RunFlow => [AuthorizationFlow];
    match a
    case AuthFailed(_) =>
      RunResult(load + renew, Crashed)
    case Authorized(creds, saved, _) =>
      var save := if saved.Some? then [TokenSave(creds)] else [];
      var trace := load + renew + save + [SheetUpdate(dst.spreadsheetId, dst.range, rows)];
      assert trace[|trace| - 1].SheetUpdate?;
      assert SavesToken(trace) ==> saved.Some?;
      assert saved.Some? ==> trace[|load + renew|].TokenSave?;
      RunResult(trace, if dst.writeSucceeds then Finished else Crashed)
  }

  /** The whole script. */
  function Run(src: Source, dst: Destination): (r: RunResult)
    ensures r.exit == Quit <==> src.init.Raised? || src.login.Raised?
    ensures src.init.Raised? ==>
      r.trace == [ClientInit, Diagnostic(ErrorLine("init", src.init.error))]
    ensures src.init.Done? && src.login.Raised? ==>
      r.trace == [ClientInit, ClientLogin, Diagnostic(ErrorLine("login", src.login.error))]
    ensures Fetches(r.trace) <==> src.init.Done? && src.login.Done?
    ensures Writes(r.trace) || SavesToken(r.trace) ==>
      src.init.Done? && src.login.Done? && src.fetched.Success? &&
      Rows(src.fetched.value, src.offset).Success?
    ensures Writes(r.trace) ==>
      r.trace[|r.trace| - 1] ==
        SheetUpdate(dst.spreadsheetId, dst.range, Rows(src.fetched.value, src.offset).value)
    ensures Writes(r.trace) <==>
      src.init.Done? && src.login.Done? && src.fetched.Success? &&
      Rows(src.fetched.value, src.offset).Success? &&
      Resolve(dst.tokenFile, dst.refreshed, dst.granted).Authorized?
    ensures SavesToken(r.trace) <==>
      src.init.Done? && src.login.Done? && src.fetched.Success? &&
      Rows(src.fetched.value, src.offset).Success? &&
      Resolve(dst.tokenFile, dst.refreshed, dst.granted).Authorized? && Decide(dst.tokenFile).save
    ensures r.exit == Finished <==>
      src.init.Done? && src.login.Done? && src.fetched.Success? &&
      Rows(src.fetched.value, src.offset).Success? &&
      Resolve(dst.tokenFile, dst.refreshed, dst.granted).Authorized? && dst.writeSucceeds
  {
    match src.init
    case Raised(e) => RunResult([ClientInit, Diagnostic(ErrorLine("init", e))], Quit)
    case Done =>
      match src.login
      case Raised(e) => RunResult([ClientInit, ClientLogin, Diagnostic(ErrorLine("login", e))], Quit)
      case Done =>
        var fetch := [ClientInit, ClientLogin, Fetch(FetchStart, src.today)];
        assert fetch[2].Fetch?;
        match src.fetched
        case Failure(_) => RunResult(fetch, Crashed)
        case Success(samples) =>
          match Rows(samples, src.offset)
          case Failure(_) => RunResult(fetch, Crashed)
          case Success(rows) =>
            var sync := Sync(rows, dst);
            FramesOfAppend(fetch, sync.trace);
            RunResult(fetch + sync.trace, sync.exit)
  }

  lemma FramesOfAppend(pre: seq<Event>, post: seq<Event>)
    requires !Writes(pre) && !SavesToken(pre)
    ensures Writes(pre + post) <==> Writes(post)
    ensures SavesToken(pre + post) <==> SavesToken(post)
    ensures Fetches(pre) ==> Fetches(pre + post)
  {
    if Writes(post) {
      var i :| 0 <= i < |post| && post[i].SheetUpdate?;
      assert (pre + post)[|pre| + i] == post[i];
    }
    if SavesToken(post) {
      var i :| 0 <= i < |post| && post[i].TokenSave?;
      assert (pre + post)[|pre| + i] == post[i];
    }
    if Writes(pre + post) {
      var i :| 0 <= i < |pre + post| && (pre + post)[i].SheetUpdate?;
      assert post[i - |pre|] == (pre + post)[i];
    }
    if SavesToken(pre + post) {
      var i :| 0 <= i < |pre + post| && (pre + post)[i].TokenSave?;
      assert post[i - |pre|] == (pre + post)[i];
    }
    if Fetches(pre) {
      var i :| 0 <= i < |pre| && pre[i].Fetch?;
      assert (pre + post)[i] == pre[i];
    }
  }

  /** The spreadsheet's cells, one value list per (spreadsheet, range). */
  type Sheets = map<(string, string), seq<Row>>

  /** The spreadsheet after a run: its update overwrites the range with the given values when it goes through. */
  function Publish(sheets: Sheets, r: RunResult): Sheets {
    if r.exit == Finished && r.trace != [] then
      match r.trace[|r.trace| - 1]
      case SheetUpdate(id, range, values) => sheets[(id, range) := values]
      case _ => sheets
    else sheets
  }

  /**
   * Two successful runs over the same fetched data leave the spreadsheet as
   * one does, whatever the state of the token cache was for each.
   */
  lemma {:induction false} RepeatedRunIdempotent(sheets: Sheets, src: Source, dst1: Destination, dst2: Destination)
    requires dst1.spreadsheetId == dst2.spreadsheetId && dst1.range == dst2.range
    requires Run(src, dst1).exit == Finished && Run(src, dst2).exit == Finished
    ensures Publish(Publish(sheets, Run(src, dst1)), Run(src, dst2)) == Publish(sheets, Run(src, dst1))
  {
    var r1, r2 := Run(src, dst1), Run(src, dst2);
    var rows := Rows(src.fetched.value, src.offset).value;
    SyncWrites(rows, dst1);
    SyncWrites(rows, dst2);
    FramesOfAppend([ClientInit, ClientLogin, Fetch(FetchStart, src.today)], Sync(rows, dst1).trace);
    FramesOfAppend([ClientInit, ClientLogin, Fetch(FetchStart, src.today)], Sync(rows, dst2).trace);
  }

  lemma SyncWrites(rows: seq<Row>, dst: Destination)
    requires Resolve(dst.tokenFile, dst.refreshed, dst.granted).Authorized?
    ensures Writes(Sync(rows, dst).trace)
  {
  }
}
