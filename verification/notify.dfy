/**
 * One run of the star notifier (`main`): load the stored snapshot, fetch the
 * current star counts, compute the repos that gained stars, write the new
 * snapshot, mail the gains unless this is the first run, and log the outcome.
 *
 * Everything the run reads from outside is an input value: the environment
 * variables, the clock reading, GitHub's responses and the mail service's
 * verdict. Raised exceptions are `Failure` values.
 */
module Notify {
  import opened Outcomes
  import opened Text
  import opened RepoCounts
  import opened GitHubPages
  import opened StarDelta
  import opened EmailBody
  import opened StatusLog

  /** What one run reads from outside the script. */
  datatype Environment = Environment(
    githubToken: Option<string>,   // GITHUB_TOKEN, None when unset
    emailAddress: Option<string>,  // EMAIL_ADDRESS, None when unset
    timestamp: string,             // the formatted clock reading used in the log line
    pages: seq<Response>,          // GitHub's answers along the repo listing's next links
    sesError: Option<string>)      // the ClientError message when the mail service refuses the mail

  /** A mail as handed to the mail service. */
  datatype Email = Email(source: string, toAddresses: seq<string>, subject: string, body: string)

  /** Why a run stopped: an exception raised by `log_status`, or an HTTP error from `raise_for_status`. */
  datatype Failure = Raised(message: string) | HttpError(status: int)

  /** What a run leaves behind: the data file, the status log, the mail sent, the exception raised. */
  datatype RunEffects = RunEffects(
    dataFile: Option<Counts>,
    logLines: seq<string>,
    sent: Option<Email>,
    raised: Option<Failure>)

  const MissingTokenMessage: string := "Missing environment variable: GITHUB_TOKEN"
  const MissingAddressMessage: string := "Missing environment variable: EMAIL_ADDRESS"

  /** `if not value`: an unset variable and an empty one are both missing. */
  predicate Present(v: Option<string>) {
    v.Some? && v.value != ""
  }

  /** The outcome of `get_current_repo_counts`, without its log effect. */
  function FetchCounts(env: Environment): (r: Result<Counts, Failure>)
    ensures r.Success? ==> DistinctKeys(r.value)
    ensures !Present(env.githubToken) ==> r == Failure(Raised(MissingTokenMessage))
    ensures r.Success? <==> Present(env.githubToken) && AllPages(env.pages).Success?
    ensures Present(env.githubToken) && AllPages(env.pages).Failure? ==>
      r == Failure(HttpError(AllPages(env.pages).error))
    ensures r.Success? ==> r.value == CountsOf(Concat(env.pages))
    ensures r.Failure? && r.error.HttpError? ==>
      && 400 <= r.error.status < 600
      && AllPages(env.pages) == Failure(r.error.status)
  {
    if !Present(env.githubToken) then Failure(Raised(MissingTokenMessage))
    else match AllPages(env.pages)
      case Failure(status) => Failure(HttpError(status))
      case Success(repos) => Success(CountsOf(repos))
  }

  /** The outcome of `send_email`, without its log effect: the mail sent or the message raised. */
  function MailFor(env: Environment, updates: seq<Update>): (r: Result<Email, string>)
    ensures r.Success? ==> Present(env.emailAddress) && env.sesError.None?
    ensures r.Success? ==>
      && r.value.source == env.emailAddress.value
      && r.value.toAddresses == [env.emailAddress.value]
      && r.value.subject == Subject
    ensures r.Success? ==> r.value.body == Body(updates)
    ensures !Present(env.emailAddress) ==> r == Failure(MissingAddressMessage)
    ensures Present(env.emailAddress) && env.sesError.None? ==> r.Success?
    ensures Present(env.emailAddress) && env.sesError.Some? ==> r == Failure(env.sesError.value)
  {
    if !Present(env.emailAddress) then Failure(MissingAddressMessage)
    else
      var address := env.emailAddress.value;
      match env.sesError
      case Some(message) => Failure(message)
      case None => Success(Email(address, [address], Subject, Body(updates)))
  }

  /** The message of the success line. */
  function SuccessMessage(totalNew: int, firstRun: bool): string {
    "Checked successfully - " + IntString(totalNew) + " new stars found"
    + (if firstRun then " (first run - email skipped)" else "")
  }

  /** A mail goes out only when some repo gained stars and this is not the first run. */
  predicate ShouldNotify(updates: seq<Update>, firstRun: bool) {
    updates != [] && !firstRun
  }

  /** A missing data file is a first run with an empty snapshot. */
  function StoredCounts(dataFile: Option<Counts>): Counts {
    if dataFile.None? then [] else dataFile.value
  }

  /** What `main` leaves behind, given the data file and the log it starts from. */
  function RunSpec(env: Environment, dataFile: Option<Counts>, logLines: seq<string>): RunEffects {
    var firstRun := dataFile.None?;
    match FetchCounts(env)
    case Failure(failure) =>
      var lines := if failure.Raised?
        then Appended(logLines, MaxLogLines, Entry(env.timestamp, StatusTag(true), failure.message))
        else logLines;
      RunEffects(dataFile, lines, None, Some(failure))
    case Success(current) =>
      var updates := Delta(StoredCounts(dataFile), current);
      var success := Entry(env.timestamp, StatusTag(false), SuccessMessage(TotalNew(updates), firstRun));
      if ShouldNotify(updates, firstRun) then
        match MailFor(env, updates)
        case Failure(message) =>
          RunEffects(Some(current), Appended(logLines, MaxLogLines, Entry(env.timestamp, StatusTag(true), message)),
                     None, Some(Raised(message)))
        case Success(mail) =>
          RunEffects(Some(current), Appended(logLines, MaxLogLines, success), Some(mail), None)
      else
        RunEffects(Some(current), Appended(logLines, MaxLogLines, success), None, None)
  }

  /** A first run (no data file) never sends a mail, whatever counts it fetches. */
  lemma FirstRunNeverSends(env: Environment, logLines: seq<string>)
    ensures RunSpec(env, None, logLines).sent == None
  {
  }

  /**
   * Once the counts were fetched, a mail goes out exactly when some repo gained
   * stars, the run is not the first, and the mail service accepted it; its
   * body is one block per gaining repo, in the order of the fetched counts.
   */
  lemma SendDecision(env: Environment, dataFile: Option<Counts>, logLines: seq<string>)
    requires FetchCounts(env).Success?
    ensures var updates := Delta(StoredCounts(dataFile), FetchCounts(env).value);
      var r := RunSpec(env, dataFile, logLines);
      && (r.sent.Some? <==> ShouldNotify(updates, dataFile.None?) && MailFor(env, updates).Success?)
      && (r.sent.Some? ==> r.sent.value == MailFor(env, updates).value)
      && (r.sent.Some? ==> r.sent.value.body == Blocks(updates))
  {
    var updates := Delta(StoredCounts(dataFile), FetchCounts(env).value);
    PositiveOfAllPositive(updates);
    BodyIsBlocksOfPositive(updates);
  }

  /**
   * The snapshot written back is exactly the fetched counts, whether or not
   * anything changed and whether or not the mail went out; a run that fails
   * while fetching leaves the data file as it was.
   */
  lemma SnapshotWritten(env: Environment, dataFile: Option<Counts>, logLines: seq<string>)
    ensures FetchCounts(env).Success? ==> RunSpec(env, dataFile, logLines).dataFile == Some(FetchCounts(env).value)
    ensures FetchCounts(env).Failure? ==> RunSpec(env, dataFile, logLines).dataFile == dataFile
  {
  }

  /**
   * Every run that raises through `log_status` has written its ERROR line
   * first; an HTTP error is raised without any log line or mail.
   */
  lemma RunLogsFailure(env: Environment, dataFile: Option<Counts>, logLines: seq<string>)
    ensures var r := RunSpec(env, dataFile, logLines);
      r.raised.Some? && r.raised.value.HttpError? ==> r.logLines == logLines && r.sent.None?
    ensures var r := RunSpec(env, dataFile, logLines);
      r.raised.Some? && r.raised.value.Raised? ==>
        && r.sent.None?
        && r.logLines == Appended(logLines, MaxLogLines, Entry(env.timestamp, "ERROR", r.raised.value.message))
        && |r.logLines| <= MaxLogLines
  {
    var r := RunSpec(env, dataFile, logLines);
    match FetchCounts(env)
    case Failure(failure) =>
      assert r.raised == Some(failure);
    case Success(current) =>
      var updates := Delta(StoredCounts(dataFile), current);
      if ShouldNotify(updates, dataFile.None?) && MailFor(env, updates).Failure? {
        assert r.raised == Some(Raised(MailFor(env, updates).error));
      } else {
        assert r.raised == None;
      }
  }

  /**
   * A run that raises nothing fetched the counts, and its last log line is
   * a SUCCESS entry reporting `total_new`, which is positive exactly when
   * some repo gained stars; the log stays within MAX_LOG_LINES.
   */
  lemma RunLogsSuccess(env: Environment, dataFile: Option<Counts>, logLines: seq<string>)
    ensures var r := RunSpec(env, dataFile, logLines);
      r.raised.None? ==>
        && FetchCounts(env).Success?
        && var updates := Delta(StoredCounts(dataFile), FetchCounts(env).value);
        && r.logLines == Appended(logLines, MaxLogLines,
             Entry(env.timestamp, "SUCCESS", SuccessMessage(TotalNew(updates), dataFile.None?)))
        && |r.logLines| <= MaxLogLines
        && (TotalNew(updates) > 0 <==> updates != [])
  {
    if FetchCounts(env).Success? {
      TotalNewOfDelta(StoredCounts(dataFile), FetchCounts(env).value);
    }
  }

  /**
   * A missing token fails the run before any request is made: the outcome
   * does not depend on GitHub's answers, nothing is saved or sent, and an
   * ERROR line names the missing variable.
   */
  lemma MissingTokenFailsFirst(env: Environment, dataFile: Option<Counts>, logLines: seq<string>, pages: seq<Response>)
    requires !Present(env.githubToken)
    ensures RunSpec(env, dataFile, logLines) == RunSpec(env.(pages := pages), dataFile, logLines)
    ensures var r := RunSpec(env, dataFile, logLines);
      && r.raised == Some(Raised(MissingTokenMessage))
      && r.sent.None? && r.dataFile == dataFile
      && r.logLines == Appended(logLines, MaxLogLines, Entry(env.timestamp, "ERROR", MissingTokenMessage))
  {
  }

  /**
   * Runs compute deltas, not absolute counts: a second run that finds the
   * same counts as the first sends nothing, whatever the first run did.
   */
  lemma RerunSendsNothing(env: Environment, dataFile: Option<Counts>, logLines: seq<string>, later: seq<string>)
    requires FetchCounts(env).Success?
    ensures RunSpec(env, RunSpec(env, dataFile, logLines).dataFile, later).sent == None
  {
    DeltaOfItself(FetchCounts(env).value);
  }

  /**
   * The snapshot is saved before the mail is sent, so a refused mail still
   * replaces the snapshot; a later run that finds the same counts, with
   * a working mail service, mails nothing about those gains.
   */
  lemma RefusedMailLosesGains(env: Environment, stored: Counts, logLines: seq<string>, later: seq<string>)
    requires FetchCounts(env).Success?
    requires Delta(stored, FetchCounts(env).value) != []
    requires MailFor(env, Delta(stored, FetchCounts(env).value)).Failure?
    ensures var r := RunSpec(env, Some(stored), logLines);
      && r.raised.Some? && r.sent.None?
      && r.dataFile == Some(FetchCounts(env).value)
      && RunSpec(env.(sesError := None), r.dataFile, later).sent == None
  {
    DeltaOfItself(FetchCounts(env).value);
    assert FetchCounts(env.(sesError := None)) == FetchCounts(env);
  }

  /** With a token and one successful page, the fetched counts are that page's dict. */
  lemma OnePageFetch(env: Environment, repos: seq<Repo>)
    requires Present(env.githubToken) && env.pages == [Response(200, repos)]
    ensures FetchCounts(env) == Success(CountsOf(repos))
  {
    assert env.pages[1..] == [];
    assert Concat(env.pages) == repos + Concat([]);
    assert repos + [] == repos;
    assert !RaisesForStatus(env.pages[0]);
  }

  /**
   * A run that mails its updates saves the fetched counts, ends the log
   * with the SUCCESS line and raises nothing.
   */
  lemma MailedRun(env: Environment, stored: Counts, logLines: seq<string>, current: Counts, updates: seq<Update>, mail: Email)
    requires FetchCounts(env) == Success(current)
    requires Delta(stored, current) == updates && updates != []
    requires MailFor(env, updates) == Success(mail)
    ensures RunSpec(env, Some(stored), logLines) == RunEffects(Some(current),
      Appended(logLines, MaxLogLines, Entry(env.timestamp, "SUCCESS", SuccessMessage(TotalNew(updates), false))),
      Some(mail), None)
  {
  }

  /** The environment of the examples below, with the given pages. */
  function ExampleEnv(pages: seq<Response>): Environment {
    Environment(Some("token"), Some("me@example.org"), "2024-05-01 12:00:00", pages, None)
  }

  /** A single page listing "a" with 5 stars and "b" with 2 is fetched as {"a": 5, "b": 2}. */
  lemma ExampleTwoRepoFetch()
    ensures FetchCounts(ExampleEnv([Response(200, [Repo("a", 5), Repo("b", 2)])])) == Success([("a", 5), ("b", 2)])
  {
    var repos := [Repo("a", 5), Repo("b", 2)];
    CountsOfDistinctNames(repos);
    assert CountsOf(repos) == [("a", 5), ("b", 2)];
    OnePageFetch(ExampleEnv([Response(200, repos)]), repos);
  }

  /** The mail about "b" gaining 2 stars, as the mail service receives it. */
  lemma ExampleMail(pages: seq<Response>)
    ensures MailFor(ExampleEnv(pages), [Update("b", 2, 2)])
      == Success(Email("me@example.org", ["me@example.org"], Subject, "b\nNew Stars: +2\nTotal Stars: 2\n\n"))
  {
    BodyExample();
  }

  /** Snapshot {"a": 5}, fresh counts {"a": 5, "b": 2}: one mail about "b" only; the snapshot becomes the fresh counts. */
  lemma ExampleNewRepo(logLines: seq<string>)
    ensures var env := ExampleEnv([Response(200, [Repo("a", 5), Repo("b", 2)])]);
      var r := RunSpec(env, Some([("a", 5)]), logLines);
      && r.sent == Some(Email("me@example.org", ["me@example.org"], Subject,
                              "b\nNew Stars: +2\nTotal Stars: 2\n\n"))
      && r.dataFile == Some([("a", 5), ("b", 2)])
      && r.raised == None
  {
    var env := ExampleEnv([Response(200, [Repo("a", 5), Repo("b", 2)])]);
    ExampleTwoRepoFetch();
    DeltaExample();
    ExampleMail(env.pages);
    MailedRun(env, [("a", 5)], logLines, [("a", 5), ("b", 2)], [Update("b", 2, 2)],
              Email("me@example.org", ["me@example.org"], Subject, "b\nNew Stars: +2\nTotal Stars: 2\n\n"));
  }

  /** No data file, fresh counts {"a": 5}: no mail, and the snapshot becomes {"a": 5}. */
  lemma ExampleFirstRun(logLines: seq<string>)
    ensures var r := RunSpec(ExampleEnv([Response(200, [Repo("a", 5)])]), None, logLines);
      r.sent == None && r.dataFile == Some([("a", 5)]) && r.raised == None
  {
    var repos := [Repo("a", 5)];
    var env := ExampleEnv([Response(200, repos)]);
    var current: Counts := [("a", 5)];
    assert FetchCounts(env) == Success(current) by {
      CountsOfDistinctNames(repos);
      assert CountsOf(repos) == current;
      OnePageFetch(env, repos);
    }
  }


  /** The data file holding the JSON snapshot; `None` when the file does not exist. */
  class DataFile {
    var contents: Option<Counts>

    constructor (contents: Option<Counts>)
      ensures this.contents == contents
    {
      this.contents := contents;
    }

    /** The load step of `main`: a missing file gives `{}` and flags the first run. */
    method Load() returns (stored: Counts, firstRun: bool)
      ensures firstRun <==> contents.None?
      ensures contents.Some? ==> stored == contents.value
      ensures contents.None? ==> stored == []
      ensures stored == StoredCounts(contents)
    {
      match contents
      case None =>
        stored, firstRun := [], true;
      case Some(data) =>
        stored, firstRun := data, false;
    }

    /** `json.dump(current_counts, f)`: the file is overwritten with the counts. */
    method Save(counts: Counts)
      modifies this
      ensures contents == Some(counts)
    {
      contents := Some(counts);
    }
  }

  /** `get_current_repo_counts`: a missing token is logged as an error and raised. */
  method GetCurrentRepoCounts(env: Environment, log: LogFile) returns (r: Result<Counts, Failure>)
    modifies log
    ensures r == FetchCounts(env)
    ensures log.lines == if r.Failure? && r.error.Raised?
      then Appended(old(log.lines), MaxLogLines, Entry(env.timestamp, StatusTag(true), r.error.message))
      else old(log.lines)
  {
    if !Present(env.githubToken) {
      var raised := log.LogStatus(env.timestamp, MissingTokenMessage, true);
      return Failure(Raised(raised.value));
    }
    var listing := GetAllPages(env.pages);
    match listing
    case Failure(status) =>
      return Failure(HttpError(status));
    case Success(repos) =>
      return Success(CountsOf(repos));
  }

  /**
   * `send_email`: a missing address or a refusal by the mail service is
   * logged as an error and raised. The unused `total_new` of the source is
   * not computed.
   */
  method SendEmail(env: Environment, updates: seq<Update>, log: LogFile) returns (r: Result<Email, string>)
    modifies log
    ensures r == MailFor(env, updates)
    ensures log.lines == if r.Failure?
      then Appended(old(log.lines), MaxLogLines, Entry(env.timestamp, StatusTag(true), r.error))
      else old(log.lines)
  {
    if !Present(env.emailAddress) {
      var raised := log.LogStatus(env.timestamp, MissingAddressMessage, true);
      return Failure(raised.value);
    }
    var address := env.emailAddress.value;
    var text := ComposeBody(updates);
    match env.sesError
    case Some(message) =>
      var raised := log.LogStatus(env.timestamp, message, true);
      return Failure(raised.value);
    case None =>
      return Success(Email(address, [address], Subject, text));
  }

  /** `main`. */
  method Run(env: Environment, data: DataFile, log: LogFile) returns (sent: Option<Email>, raised: Option<Failure>)
    modifies data, log
    ensures RunEffects(data.contents, log.lines, sent, raised) == RunSpec(env, old(data.contents), old(log.lines))
  {
    ghost var dataFile, logLines := data.contents, log.lines;
    var stored, firstRun := data.Load();
    var fetched := GetCurrentRepoCounts(env, log);
    if fetched.Failure? {
      assert RunSpec(env, dataFile, logLines) == RunEffects(dataFile, log.lines, None, Some(fetched.error));
      return None, Some(fetched.error);
    }
    var current := fetched.value;
    var updates := ComputeUpdates(stored, current);
    data.Save(current);
    var totalNew := TotalNew(updates);
    var message := "Checked successfully - " + IntString(totalNew) + " new stars found";
    if firstRun {
      message := message + " (first run - email skipped)";
    }
    assert message == SuccessMessage(totalNew, firstRun);
    sent := None;
    if updates != [] && !firstRun {
      var mail := SendEmail(env, updates, log);
      if mail.Failure? {
        assert RunSpec(env, dataFile, logLines)
          == RunEffects(Some(current), log.lines, None, Some(Raised(mail.error)));
        return None, Some(Raised(mail.error));
      }
      sent := Some(mail.value);
    }
    var _ := log.LogStatus(env.timestamp, message, false);
    raised := None;
    assert RunSpec(env, dataFile, logLines) == RunEffects(Some(current), log.lines, sent, None);
  }
}
