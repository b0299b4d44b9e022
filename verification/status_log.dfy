/**
 * `log_status`: each call reads the status log's lines, keeps only the
 * newest MAX_LOG_LINES - 1 of them once there are MAX_LOG_LINES or more,
 * appends one `[timestamp] [STATUS] message` entry and writes the file back;
 * an error message is raised afterwards. The model's lines are entries: an
 * entry whose message holds a line break is still one element here.
 */
module StatusLog {
  import opened Outcomes
  import opened Text

  /** MAX_LOG_LINES. */
  const MaxLogLines: int := 1000

  /**
   * Python's `s[start:]` for an int `start`: always a suffix of `s`; a
   * negative start keeps the last `-start` elements (all of them when there
   * are fewer), a non-negative one drops the first `start` (all of them when
   * there are fewer).
   */
  function SliceFrom<T>(s: seq<T>, start: int): (r: seq<T>)
    ensures start < 0 ==> |r| == Min(|s|, -start)
    ensures start >= 0 ==> |r| == |s| - Min(|s|, start)
    ensures r == s[|s| - |r|..]
  {
    if start < 0 then (if -start >= |s| then s else s[|s| + start..])
    else if start >= |s| then []
    else s[start..]
  }

  /**
   * The old lines kept before the new entry: `lines[-(cap - 1):]` once
   * there are `cap` or more, all of them otherwise. With `cap == 1` the slice
   * is `lines[-0:]`, which keeps every line.
   */
  function Trimmed(lines: seq<string>, cap: int): (r: seq<string>)
    ensures |r| <= |lines| && r == lines[|lines| - |r|..]
    ensures cap >= 2 ==> |r| == Min(|lines|, cap - 1)
    ensures |lines| < cap || cap == 1 ==> r == lines
  {
    if |lines| >= cap then SliceFrom(lines, -(cap - 1)) else lines
  }

  function StatusTag(error: bool): (tag: string)
    ensures tag == "ERROR" <==> error
    ensures tag == "SUCCESS" <==> !error
  {
    if error then "ERROR" else "SUCCESS"
  }

  /** The line `log_status` writes: `[timestamp] [STATUS] message` and a line break. */
  function Entry(timestamp: string, status: string, message: string): string {
    "[" + timestamp + "] [" + status + "] " + message + "\n"
  }

  /** The file's lines after one `log_status` call appending `entry`. */
  function Appended(lines: seq<string>, cap: int, entry: string): (r: seq<string>)
    ensures cap >= 2 ==> |r| <= cap
    ensures |r| >= 1 && r[|r| - 1] == entry
    ensures |lines| < cap ==> r == lines + [entry]
    ensures cap >= 2 && |lines| >= cap ==> r == lines[|lines| - (cap - 1)..] + [entry]
    ensures cap == 1 ==> r == lines + [entry]
  {
    Trimmed(lines, cap) + [entry]
  }

  /** The file's lines after one `log_status` call per entry of `entries`, in order. */
  function AppendedAll(lines: seq<string>, cap: int, entries: seq<string>): seq<string> {
    if entries == [] then lines
    else Appended(AppendedAll(lines, cap, entries[..|entries| - 1]), cap, entries[|entries| - 1])
  }

  function Min(a: int, b: int): int {
    if a <= b then a else b
  }

  /** `s` is a suffix of `r`. */
  predicate EndsWith(r: seq<string>, s: seq<string>) {
    |s| <= |r| && r[|r| - |s|..] == s
  }

  lemma EndsWithShorter(r: seq<string>, s: seq<string>, k: nat)
    requires EndsWith(r, s) && k <= |s|
    ensures EndsWith(r, s[|s| - k..])
  {
    assert r[|r| - k..] == r[|r| - |s|..][|s| - k..];
  }

  /** One append keeps a suffix of fewer than `cap` lines and puts the entry after it. */
  lemma AppendedKeepsSuffix(prev: seq<string>, cap: int, e: string, tail: seq<string>)
    requires cap >= 2 && EndsWith(prev, tail) && |tail| <= cap - 1
    ensures EndsWith(Appended(prev, cap, e), tail + [e])
  {
    var kept := Trimmed(prev, cap);
    SliceOfSlice(prev, |prev| - |kept|, |kept| - |tail|);
    assert kept[|kept| - |tail|..] == tail;
    var r := kept + [e];
    assert r[|r| - (|tail| + 1)..] == kept[|kept| - |tail|..] + [e];
  }

  lemma SliceOfSlice(s: seq<string>, i: nat, j: nat)
    requires i <= |s| && j <= |s| - i
    ensures s[i..][j..] == s[i + j..]
  {
  }

  lemma LastSuffixSplit(entries: seq<string>, k: nat)
    requires 1 <= k <= |entries|
    ensures entries[..|entries| - 1][|entries| - k..] + [entries[|entries| - 1]] == entries[|entries| - k..]
  {
  }

  /** One more append moves the window of newest entries along by one. */
  lemma AppendedKeepsNewest(prev: seq<string>, cap: int, entries: seq<string>)
    requires cap >= 2 && entries != []
    requires var front := entries[..|entries| - 1];
      EndsWith(prev, front[|front| - Min(|front|, cap)..])
    ensures EndsWith(Appended(prev, cap, entries[|entries| - 1]), entries[|entries| - Min(|entries|, cap)..])
  {
    var n := |entries|;
    var front := entries[..n - 1];
    var m := Min(n, cap);
    var mp := Min(n - 1, cap);
    var tail := front[n - m..];
    EndsWithShorter(prev, front[n - 1 - mp..], m - 1);
    SliceOfSlice(front, n - 1 - mp, mp - (m - 1));
    LastSuffixSplit(entries, m);
    AppendedKeepsSuffix(prev, cap, entries[n - 1], tail);
  }

  /**
   * Ring-buffer behaviour over many runs: once anything has been logged, the
   * file holds at most `cap` lines, and they end with the newest
   * `min(#entries, cap)` entries in the order they were logged.
   */
  lemma {:induction false} AppendedAllKeepsNewest(lines: seq<string>, cap: int, entries: seq<string>)
    requires cap >= 2 && entries != []
    ensures |AppendedAll(lines, cap, entries)| <= cap
    ensures EndsWith(AppendedAll(lines, cap, entries), entries[|entries| - Min(|entries|, cap)..])
  {
    var front := entries[..|entries| - 1];
    if front != [] {
      AppendedAllKeepsNewest(lines, cap, front);
    } else {
      assert front[0 - Min(0, cap)..] == [];
    }
    AppendedKeepsNewest(AppendedAll(lines, cap, front), cap, entries);
  }

  /** With a timestamp and message on one line each, the entry is exactly one line of the file. */
  lemma EntryIsOneLine(timestamp: string, error: bool, message: string)
    requires NoNewline(timestamp) && NoNewline(message)
    ensures var e := Entry(timestamp, StatusTag(error), message);
      NewlineCount(e) == 1 && e[|e| - 1] == '\n' && NoNewline(e[..|e| - 1])
  {
    var e := Entry(timestamp, StatusTag(error), message);
    var body := "[" + timestamp + "] [" + StatusTag(error) + "] " + message;
    assert e == body + "\n";
    assert e[..|e| - 1] == body;
    assert NoNewline(body);
    NoNewlineCount(body);
    var nl: string := "\n";
    assert nl[..0] == [];
    NewlineCountAppend(body, nl);
  }

  /** The status log file; a missing file reads as having no lines. */
  class LogFile {
    var lines: seq<string>

    constructor (lines: seq<string>)
      ensures this.lines == lines
    {
      this.lines := lines;
    }

    /**
     * `log_status(message, error)` at time `timestamp`. The entry is written
     * in every case; when `error` is set the message is raised afterwards,
     * returned here as `Some(message)`.
     */
    method LogStatus(timestamp: string, message: string, error: bool) returns (raised: Option<string>)
      modifies this
      ensures lines == Appended(old(lines), MaxLogLines, Entry(timestamp, StatusTag(error), message))
      ensures raised == if error then Some(message) else None
    {
      var current := lines;
      if |current| >= MaxLogLines {
        current := SliceFrom(current, -(MaxLogLines - 1));
      }
      var status := if error then "ERROR" else "SUCCESS";
      var newEntry := "[" + timestamp + "] [" + status + "] " + message + "\n";
      lines := current + [newEntry];
      if error {
        return Some(message);
      }
      return None;
    }
  }
}
