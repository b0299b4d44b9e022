/**
 * Star counts per repository, as the script keeps them in Python dicts:
 * the `current_counts` built by the comprehension in `get_current_repo_counts`
 * and the `stored_data` snapshot loaded from the data file. A dict is an
 * association list in insertion order whose keys are distinct.
 */
module RepoCounts {

  /** One element of the repository listing; only `name` and `stargazers_count` are read. */
  datatype Repo = Repo(name: string, stargazersCount: int)

  /** A dict from repository name to star count, in insertion order. */
  type Counts = seq<(string, int)>

  predicate DistinctKeys(d: Counts) {
    forall i, j :: 0 <= i < j < |d| ==> d[i].0 != d[j].0
  }

  /** The keys of `d` in insertion order (`list(d)` in Python). */
  function Keys(d: Counts): (ks: seq<string>)
    ensures |ks| == |d| && forall i :: 0 <= i < |d| ==> ks[i] == d[i].0
  {
    seq(|d|, i requires 0 <= i < |d| => d[i].0)
  }

  /** The names listed in the repository listing. */
  function Names(repos: seq<Repo>): set<string> {
    set i | 0 <= i < |repos| :: repos[i].name
  }

  /** `d.get(k, default)`. */
  function Get(d: Counts, k: string, default: int): int {
    if d == [] then default
    else if d[0].0 == k then d[0].1
    else Get(d[1..], k, default)
  }

  /** A key the dict does not hold reads as the default. */
  lemma {:induction false} GetAbsent(d: Counts, k: string, default: int)
    requires forall i :: 0 <= i < |d| ==> d[i].0 != k
    ensures Get(d, k, default) == default
  {
    if d != [] {
      assert forall i :: 0 <= i < |d| - 1 ==> d[1..][i] == d[i + 1];
      GetAbsent(d[1..], k, default);
    }
  }

  /** A key the dict holds reads as its value. */
  lemma {:induction false} GetPresent(d: Counts, i: nat, default: int)
    requires DistinctKeys(d) && i < |d|
    ensures Get(d, d[i].0, default) == d[i].1
  {
    if i > 0 {
      assert d[1..][i - 1] == d[i];
      assert DistinctKeys(d[1..]) by {
        forall a, b | 0 <= a < b < |d| - 1 ensures d[1..][a].0 != d[1..][b].0 {
          assert d[1..][a] == d[a + 1] && d[1..][b] == d[b + 1];
        }
      }
      GetPresent(d[1..], i - 1, default);
    }
  }

  /**
   * `d[k] = v`: an existing key keeps its position and takes the new value,
   * a new key goes at the end.
   */
  function Assign(d: Counts, k: string, v: int): (r: Counts)
    ensures Keys(r) == if k in Keys(d) then Keys(d) else Keys(d) + [k]
    ensures forall i :: 0 <= i < |d| && d[i].0 != k ==> r[i] == d[i]
    ensures (k, v) in r
    ensures DistinctKeys(d) ==> DistinctKeys(r)
  {
    if k in Keys(d) then
      var r := seq(|d|, i requires 0 <= i < |d| => if d[i].0 == k then (k, v) else d[i]);
      var i :| 0 <= i < |d| && Keys(d)[i] == k;
      assert r[i] == (k, v);
      assert Keys(r) == Keys(d);
      r
    else
      var r := d + [(k, v)];
      assert r[|d|] == (k, v);
      assert Keys(r) == Keys(d) + [k];
      assert forall i :: 0 <= i < |d| ==> d[i].0 != k by {
        forall i | 0 <= i < |d| ensures d[i].0 != k {
          assert Keys(d)[i] == d[i].0;
        }
      }
      r
  }

  /**
   * The comprehension `{repo['name']: repo['stargazers_count'] for repo in repos}`:
   * the repos are assigned in listing order.
   */
  function CountsOf(repos: seq<Repo>): (d: Counts)
    ensures DistinctKeys(d)
  {
    if repos == [] then []
    else
      var last := repos[|repos| - 1];
      Assign(CountsOf(repos[..|repos| - 1]), last.name, last.stargazersCount)
  }

  /** The keys of `current_counts` are exactly the names in the listing. */
  lemma {:induction false} CountsOfKeys(repos: seq<Repo>)
    ensures forall k :: k in Keys(CountsOf(repos)) <==> k in Names(repos)
  {
    if repos != [] {
      var n := |repos|;
      var front := repos[..n - 1];
      var last := repos[n - 1];
      CountsOfKeys(front);
      var d := CountsOf(front);
      assert CountsOf(repos) == Assign(d, last.name, last.stargazersCount);
      assert Names(repos) == Names(front) + {last.name} by {
        forall k | k in Names(repos) ensures k in Names(front) + {last.name} {
          var i :| 0 <= i < n && repos[i].name == k;
          if i < n - 1 {
            assert front[i] == repos[i];
          }
        }
        forall k | k in Names(front) ensures k in Names(repos) {
          var i :| 0 <= i < n - 1 && front[i].name == k;
          assert repos[i] == front[i];
        }
      }
    }
  }

  /** The position in the dict of the last repo listed under a given name. */
  lemma {:induction false} CountsOfLastPosition(repos: seq<Repo>, i: nat) returns (p: nat)
    requires i < |repos|
    requires forall j :: i < j < |repos| ==> repos[j].name != repos[i].name
    ensures p < |CountsOf(repos)| && CountsOf(repos)[p] == (repos[i].name, repos[i].stargazersCount)
  {
    var n := |repos|;
    var last := repos[n - 1];
    var front := repos[..n - 1];
    var d := CountsOf(front);
    var r := CountsOf(repos);
    assert r == Assign(d, last.name, last.stargazersCount);
    assert |Keys(r)| >= |Keys(d)|;
    if i < n - 1 {
      assert front[i] == repos[i];
      assert forall j :: i < j < |front| ==> front[j] == repos[j];
      p := CountsOfLastPosition(front, i);
      assert r[p] == d[p];
    } else {
      p :| 0 <= p < |r| && r[p] == (last.name, last.stargazersCount);
    }
  }

  /**
   * When a name is listed more than once, the last listed count wins:
   * `current_counts.get(name)` is the count of the last repo listed under it.
   */
  lemma CountsOfGetLast(repos: seq<Repo>, i: nat)
    requires i < |repos|
    requires forall j :: i < j < |repos| ==> repos[j].name != repos[i].name
    ensures (repos[i].name, repos[i].stargazersCount) in CountsOf(repos)
    ensures Get(CountsOf(repos), repos[i].name, 0) == repos[i].stargazersCount
  {
    var p := CountsOfLastPosition(repos, i);
    assert CountsOf(repos)[p] in CountsOf(repos);
    GetPresent(CountsOf(repos), p, 0);
  }

  /** When every listed name is different, the dict lists each repo once, in listing order. */
  lemma {:induction false} CountsOfDistinctNames(repos: seq<Repo>)
    requires forall i, j :: 0 <= i < j < |repos| ==> repos[i].name != repos[j].name
    ensures |CountsOf(repos)| == |repos|
    ensures forall i :: 0 <= i < |repos| ==> CountsOf(repos)[i] == (repos[i].name, repos[i].stargazersCount)
  {
    if repos != [] {
      var n := |repos|;
      var last := repos[n - 1];
      var front := repos[..n - 1];
      assert forall i :: 0 <= i < n - 1 ==> front[i] == repos[i];
      CountsOfDistinctNames(front);
      var d := CountsOf(front);
      var r := CountsOf(repos);
      assert r == Assign(d, last.name, last.stargazersCount);
      assert last.name !in Keys(d) by {
        forall i | 0 <= i < |d| ensures Keys(d)[i] != last.name {
          assert d[i].0 == repos[i].name;
        }
      }
      assert r == d + [(last.name, last.stargazersCount)];
      forall i | 0 <= i < n ensures r[i] == (repos[i].name, repos[i].stargazersCount) {
        if i < n - 1 {
          assert r[i] == d[i];
        }
      }
    }
  }
}
