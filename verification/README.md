# GitHub star notification — a Dafny model

`notify.py` is a script that runs on a schedule. On each run it:

1. loads the star counts saved by the previous run from `repo_star_counts.json`;
2. fetches every repository of one GitHub user through the paginated REST API;
3. works out which repositories gained stars since the saved snapshot;
4. writes the fresh counts back as the new snapshot;
5. mails the gains through Amazon SES, unless this is the first run;
6. appends a `[timestamp] [SUCCESS|ERROR] message` line to `~/status.log`.

The status log is rotated: once it holds 1000 lines or more, only the newest
999 are kept before the new entry is appended. The file therefore stays
within 1000 lines as long as every message is a single line. Every error
that goes through `log_status` is logged and then raised again.

The model follows the script's structure, one Dafny module per concern:

- `Outcomes`: `Option` and `Result`, which stand for `None` values and raised
  exceptions.
- `Text`: the decimal rendering of integers in f-strings, and line counting.
- `RepoCounts`: Python dicts as association lists that keep insertion order.
  This includes the dict comprehension that builds `{name: stargazers_count}`.
- `GitHubPages`: `get_all_pages`, a loop over the pages that GitHub returns
  along its `next` links.
- `StarDelta`: the comparison loop in `main` and `total_new`.
- `EmailBody`: the mail text built by `send_email`.
- `StatusLog`: `log_status`, with the log file as a class whose lines the
  method rewrites.
- `Notify`: the data file as a class, `get_current_repo_counts`, `send_email`
  and `main`.

`main` is the method `Notify.Run`. It is proved equal to the pure
`Notify.RunSpec`, which returns what a run leaves behind: the data file, the
log lines, the mail sent and the exception raised. The properties of a run are
lemmas about `RunSpec`.

The model follows the code where it differs from the usual description of the
script:

- The new snapshot is written before the mail is sent. When SES refuses the
  mail, the run still saves the fresh counts and raises. The next run then
  compares against those counts, so the gains are never mailed
  (`Notify.RefusedMailLosesGains`).
- An HTTP error from `raise_for_status` is raised without a log line. Only
  errors raised through `log_status` (a missing token, a missing address, an
  SES `ClientError`) leave an ERROR line (`Notify.RunLogsFailure`).
- `send_email` computes its own `total_new` but never uses it, so the model
  does not compute it.
- `if not value` counts an empty environment variable as missing
  (`Notify.Present`).

## Model

| member | source | states |
|---|---|---|
| StatusLog.SliceFrom | notify.py:24 | Python's `s[start:]` is always a suffix of `s`. A negative start keeps min(len, −start) elements; a non-negative one drops min(len, start) |
| StatusLog.Trimmed | notify.py:23-24 | the lines kept before the new entry are a suffix of the old lines: the newest min(len, cap−1) of them, or all of them below the cap or when cap is 1 |
| StatusLog.Entry | notify.py:28 | reference definition of the `[timestamp] [status] message` line. `StatusLog.EntryIsOneLine` states its property |
| StatusLog.StatusTag | notify.py:27 | the tag is "ERROR" exactly when `error` holds and "SUCCESS" exactly when it does not |
| StatusLog.Appended | notify.py:23-32 | the rewritten log ends with the new entry. Below the cap it is the old lines plus the entry. At or above the cap it is the newest cap−1 old lines plus the entry. So it never holds more than cap entries |
| StatusLog.AppendedAll | notify.py:15-35 | reference definition of one `log_status` call per entry in turn. `StatusLog.AppendedAllKeepsNewest` states its properties |
| StatusLog.AppendedKeepsSuffix | notify.py:23-32 | rotation keeps any suffix of at most cap−1 old lines in front of the new entry |
| StatusLog.AppendedKeepsNewest | notify.py:23-32 | one more run keeps the newest min(runs, cap) entries at the end of the log |
| StatusLog.AppendedAllKeepsNewest | notify.py:12-32 | after any number of runs the log holds at most MAX_LOG_LINES entries, and they end with the newest min(runs, cap) entries |
| StatusLog.EntryIsOneLine | notify.py:28 | an entry whose timestamp and message have no newline is exactly one line ending in "\n" |
| StatusLog.LogFile.constructor | notify.py:17-21 | the log starts with the lines read from the file, or with none when the file is missing |
| StatusLog.LogFile.LogStatus | notify.py:15-35 | the file is rewritten as the rotated lines plus the tagged entry. The message is raised exactly when `error` is set |
| GitHubPages.RaisesForStatus | notify.py:42 | reference definition: `raise_for_status` raises for statuses 400–599. `GitHubPages.AllPages` states its effect |
| GitHubPages.AllPages | notify.py:37-46 | the listing succeeds exactly when no page has a 4xx/5xx status. It is then the pages' repositories concatenated in order. A failure carries a status in 400–599 |
| GitHubPages.AllPagesFirstFailure | notify.py:40-42 | the error raised is the status of the first failing page, whatever follows it |
| GitHubPages.GetAllPages | notify.py:37-46 | the fetch loop returns exactly `AllPages` of the responses |
| RepoCounts.Get | notify.py:113 | reference definition of `dict.get(k, default)`. `RepoCounts.GetAbsent` and `RepoCounts.GetPresent` state its properties |
| RepoCounts.GetAbsent | notify.py:113 | `dict.get(k, default)` gives the default when `k` is not a key |
| RepoCounts.GetPresent | notify.py:113 | `dict.get(k, default)` gives the value stored under `k` when `k` is a key |
| RepoCounts.Assign | notify.py:62 | `d[k] = v` keeps the position of an existing key or appends a new one. It leaves the other entries unchanged, stores `(k, v)` and keeps the keys distinct |
| RepoCounts.CountsOf | notify.py:62 | the comprehension yields a dict: its keys are distinct |
| RepoCounts.CountsOfKeys | notify.py:62 | the dict's keys are exactly the repositories' names |
| RepoCounts.CountsOfLastPosition | notify.py:62 | for a repeated name, the dict holds the star count of the last repository with that name |
| RepoCounts.CountsOfGetLast | notify.py:62 | looking a name up in the dict gives the star count of the last repository with that name |
| RepoCounts.CountsOfDistinctNames | notify.py:62 | with distinct names, the dict lists every repository's `(name, stargazers_count)` in listing order |
| StarDelta.Delta | notify.py:111-120 | an update is recorded for a repo exactly when its current count exceeds its stored count (0 when absent). It carries that difference and the current total |
| StarDelta.DeltaKeepsOrder | notify.py:111-120 | the updates follow the order of the current counts |
| StarDelta.DeltaDistinct | notify.py:111-120 | no repo is reported twice |
| StarDelta.DeltaMembership | notify.py:111-120 | a current repo is reported exactly when it gained stars, with its gain and current total |
| StarDelta.NewRepoReportedInFull | notify.py:113-120 | a repo absent from the snapshot with a positive count is reported with all its stars as new |
| StarDelta.ComputeUpdates | notify.py:111-120 | the comparison loop returns exactly `Delta` |
| StarDelta.TotalNew | notify.py:127 | for positive gains, the sum is at least the number of updates and is positive exactly when there is one |
| StarDelta.TotalNewOfDelta | notify.py:127 | `total_new` is never negative, and it is positive exactly when some repo gained stars |
| StarDelta.NoRiseNoUpdates | notify.py:111-120 | when no count rose above its stored value, nothing is reported |
| StarDelta.DeltaOfItself | notify.py:111-124 | comparing a snapshot with itself reports nothing |
| StarDelta.DeltaExample | notify.py:111-120 | snapshot {"a": 5} against {"a": 5, "b": 2} reports only "b", with 2 new and 2 in total |
| Text.NatString | notify.py:75-76 | the decimal rendering is a nonempty digit string without a leading zero |
| Text.ParseNatString | notify.py:75-76 | reading the rendering back gives the number |
| Text.IntString | notify.py:132 | an integer renders on one line, with a minus sign exactly when it is negative, and the digits, with no leading zero, read back as its absolute value |
| EmailBody.Body | notify.py:70-76 | reference definition of the text loop. `EmailBody.BodyIsBlocksOfPositive`, `EmailBody.BodyEmptyIff` and `EmailBody.BodyLineCount` state its properties |
| EmailBody.Positive | notify.py:72-73 | the filter keeps exactly the updates with positive new stars |
| EmailBody.PositiveSnoc | notify.py:72-73 | filtering one more update appends it exactly when it has new stars |
| EmailBody.PositiveAppend | notify.py:72-73 | filtering a concatenation is the concatenation of the filtered parts, so the filter keeps the updates' order |
| EmailBody.BodyIsBlocksOfPositive | notify.py:70-76 | the body is one three-line block per update with positive new stars, in order |
| EmailBody.PositiveOfAllPositive | notify.py:73 | the filter keeps every update that `main` passes in, because all of them are positive |
| EmailBody.BodyEmptyIff | notify.py:70-76 | the body is empty exactly when no update has positive new stars |
| EmailBody.BlockLines | notify.py:74-76 | each block is four newline-terminated lines (name, new stars, total, blank) |
| EmailBody.BodyLineCount | notify.py:70-76 | the body has four lines per reported repo |
| EmailBody.ComposeBody | notify.py:70-76 | the string-building loop returns exactly `Body` |
| EmailBody.BodyExample | notify.py:74-76 | one update for "b" renders as "b\nNew Stars: +2\nTotal Stars: 2\n\n" |
| Notify.Present | notify.py:51 | reference definition of `if not value`: an unset and an empty variable are both missing |
| Notify.FetchCounts | notify.py:48-62 | a missing token raises its message. The fetch succeeds exactly when the token is present and no page fails. With a token, a failing page gives an HTTP error, never a logged one. It then yields the comprehension over all pages' repositories, with distinct keys. That HTTP error carries the first failing page's 4xx/5xx status |
| Notify.MailFor | notify.py:64-94 | a missing address raises its message. With an address, a refusal by SES raises SES's message, and otherwise the mail is produced. The mail goes from and to that address, under the fixed subject, with `Body` of the updates as text |
| Notify.SuccessMessage | notify.py:132-134 | reference definition of the success message. `Notify.RunLogsSuccess` states where it is logged |
| Notify.ShouldNotify | notify.py:128 | reference definition of `repo_updates and not first_run`. `Notify.SendDecision` states its effect |
| Notify.RunSpec | notify.py:96-135 | reference definition of what one run of `main` leaves behind. `Notify.Run` is proved equal to it, and the lemmas below state its properties |
| Notify.DataFile.constructor | notify.py:100-105 | the data file holds the snapshot, or nothing when it is missing |
| Notify.DataFile.Load | notify.py:100-105 | a missing file gives `{}` and marks the first run; otherwise the stored snapshot is returned. Either way the result is `StoredCounts`, the snapshot `RunSpec` uses |
| Notify.DataFile.Save | notify.py:123-124 | the file is overwritten with the given counts |
| Notify.GetCurrentRepoCounts | notify.py:48-62 | returns `FetchCounts`. It logs an ERROR line only when it raises through `log_status` |
| Notify.SendEmail | notify.py:64-94 | returns `MailFor`. It logs an ERROR line exactly when it raises |
| Notify.Run | notify.py:96-135 | the data file, the log, the mail sent and the exception raised are exactly those of `RunSpec` |
| Notify.FirstRunNeverSends | notify.py:128 | a run with no data file sends no mail |
| Notify.SendDecision | notify.py:126-129 | a mail is sent exactly when some repo gained stars, the run is not the first and the mail could be sent. It is `MailFor`'s mail, and its body is one block per update |
| Notify.SnapshotWritten | notify.py:122-124 | after a successful fetch the snapshot becomes the fetched counts, whatever else happens. A failed fetch leaves the file alone |
| Notify.RunLogsFailure | notify.py:15-35 | an HTTP error leaves the log unchanged and sends no mail. Any other exception follows its ERROR line, sends no mail and keeps the log within the cap, counted in entries |
| Notify.RunLogsSuccess | notify.py:127-135 | a run that raises nothing ends with the SUCCESS line reporting `total_new` (positive exactly when some repo gained stars) and keeps the log within the cap, counted in entries |
| Notify.MissingTokenFailsFirst | notify.py:50-52 | a missing token fails before any request: the outcome ignores GitHub's answers, nothing is saved or sent, and the ERROR line names the variable |
| Notify.RerunSendsNothing | notify.py:111-124 | a second run that finds the same counts sends nothing |
| Notify.RefusedMailLosesGains | notify.py:122-129 | a refused mail still saves the fresh counts, so a later run with working mail reports nothing about those gains |
| Notify.MailedRun | notify.py:122-135 | a run that mails its updates saves the fetched counts, ends the log with the SUCCESS line and raises nothing |
| Notify.OnePageFetch | notify.py:37-62 | one successful page gives the comprehension over its repositories |
| Notify.ExampleTwoRepoFetch | notify.py:48-62 | one page listing "a" with 5 stars and "b" with 2 is fetched as {"a": 5, "b": 2} |
| Notify.ExampleMail | notify.py:64-94 | the mail about "b" gaining 2 stars goes from and to the address, under the fixed subject, with the text "b\nNew Stars: +2\nTotal Stars: 2\n\n" |
| Notify.ExampleNewRepo | notify.py:96-135 | snapshot {"a": 5}, fetched {"a": 5, "b": 2}, any starting log: the single mail reports "b", the snapshot becomes the fetched counts, and nothing is raised |
| Notify.ExampleFirstRun | notify.py:96-135 | no data file, fetched {"a": 5}, any starting log: no mail, the snapshot becomes {"a": 5}, and nothing is raised |

## Left out

- HTTP requests, the `Authorization` and `Accept` headers, the user URL, and `params={'per_page': 100}` are left out. The GitHub responses along the `next` links are an input sequence; the model does not follow links.
- The SES client and its region are left out. The outcome of `client.send_email` is an input: no error, or a `ClientError` message.
- The SMTP and MIME imports are never used by the script and are not modelled.
- Reading and writing files are left out: opening, JSON encoding and decoding, `readlines`, `writelines`. The files are the `LogFile` and `DataFile` objects. A log line without a trailing newline, which `readlines` would join with the next entry, is not modelled.
- The snapshot's JSON values are assumed to be integers. Other JSON content is not modelled.
- The model cannot tell an empty log file from a missing one: both start as no lines, as in the script.
- `datetime.now()` and `os.environ` are inputs to a run (`Environment`). A run uses a single timestamp for all of its log lines.
- Only the exceptions the script raises itself, plus HTTP errors, are modelled. A network failure inside `requests`, a non-`ClientError` exception from boto3, and file system errors are left out.
- StatusLog.EntryIsOneLine: states the one-line property only for timestamps and messages without newlines. An SES error message containing a newline would split the entry over several lines.
- StatusLog.Appended: its cap bounds the number of log entries, which is the number of file lines only when every entry is one line. After 999 kept lines, an error message `"a\nb"` gives the file 1001 lines while the model counts 1000 entries. The `readlines` split of such an entry on the next run is not modelled.
- StatusLog.AppendedAllKeepsNewest: the bound of MAX_LOG_LINES counts entries, not file lines, for the same reason.
- Notify.RunLogsFailure: the bound of MAX_LOG_LINES counts entries, not file lines, for the same reason.
- Notify.RunLogsSuccess: the bound of MAX_LOG_LINES counts entries, not file lines, for the same reason.
- Process exit codes and the scheduler that runs the script are left out. A raised exception is the `raised` field of a run's outcome.
