/**
 * The comparison step of `main`: which repositories gained stars since the
 * stored snapshot, by how many, and the total number of new stars.
 */
module StarDelta {
  import opened RepoCounts

  /** An entry of `repo_updates`: the repo name with its `new_stars` and `current_total`. */
  datatype Update = Update(repo: string, newStars: int, currentTotal: int)

  /** The keys of `repo_updates`, in insertion order. */
  function UpdateKeys(us: seq<Update>): (ks: seq<string>)
    ensures |ks| == |us| && forall i :: 0 <= i < |us| ==> ks[i] == us[i].repo
  {
    seq(|us|, i requires 0 <= i < |us| => us[i].repo)
  }

  predicate AllPositive(us: seq<Update>) {
    forall u :: u in us ==> u.newStars > 0
  }

  /**
   * `repo_updates` as `main` builds it: for each repo of `current`, in order,
   * `new_stars = current_count - stored.get(repo, 0)`, kept only when positive.
   */
  function Delta(stored: Counts, current: Counts): (us: seq<Update>)
    ensures |us| <= |current|
    ensures forall u :: u in us ==>
      && u.newStars > 0
      && (u.repo, u.currentTotal) in current
      && u.newStars == u.currentTotal - Get(stored, u.repo, 0)
    ensures forall p :: p in current && p.1 - Get(stored, p.0, 0) > 0 ==>
      Update(p.0, p.1 - Get(stored, p.0, 0), p.1) in us
  {
    if current == [] then []
    else
      var front := current[..|current| - 1];
      var last := current[|current| - 1];
      assert forall p :: p in current ==> p in front || p == last by {
        assert current == front + [last];
      }
      var newStars := last.1 - Get(stored, last.0, 0);
      Delta(stored, front) + (if newStars > 0 then [Update(last.0, newStars, last.1)] else [])
  }

  /** `a` is `b` with some elements left out, the rest kept in their order. */
  predicate IsSubsequence(a: seq<string>, b: seq<string>)
    decreases |b|
  {
    if a == [] then true
    else if b == [] then false
    else
      (a[|a| - 1] == b[|b| - 1] && IsSubsequence(a[..|a| - 1], b[..|b| - 1]))
      || IsSubsequence(a, b[..|b| - 1])
  }

  /** The repos of `repo_updates` appear in the same relative order as in `current_counts`. */
  lemma {:induction false} DeltaKeepsOrder(stored: Counts, current: Counts)
    ensures IsSubsequence(UpdateKeys(Delta(stored, current)), Keys(current))
  {
    if current != [] {
      var front := current[..|current| - 1];
      var last := current[|current| - 1];
      var us := Delta(stored, current);
      var prev := Delta(stored, front);
      DeltaKeepsOrder(stored, front);
      assert Keys(current)[..|current| - 1] == Keys(front);
      if last.1 - Get(stored, last.0, 0) > 0 {
        assert us == prev + [Update(last.0, last.1 - Get(stored, last.0, 0), last.1)];
        assert UpdateKeys(us)[..|us| - 1] == UpdateKeys(prev);
      } else {
        assert us == prev;
        if us != [] {
          assert IsSubsequence(UpdateKeys(us), Keys(current)[..|current| - 1]);
        }
      }
    }
  }

  /** Since the keys of `current_counts` are distinct, so are the keys of `repo_updates`. */
  lemma {:induction false} DeltaDistinct(stored: Counts, current: Counts)
    requires DistinctKeys(current)
    ensures forall i, j :: 0 <= i < j < |Delta(stored, current)| ==>
      Delta(stored, current)[i].repo != Delta(stored, current)[j].repo
  {
    if current != [] {
      var front := current[..|current| - 1];
      var last := current[|current| - 1];
      var us := Delta(stored, current);
      var prev := Delta(stored, front);
      DeltaDistinct(stored, front);
      if last.1 - Get(stored, last.0, 0) > 0 {
        assert us == prev + [Update(last.0, last.1 - Get(stored, last.0, 0), last.1)];
        forall i | 0 <= i < |prev| ensures prev[i].repo != last.0 {
          assert prev[i] in prev;
          var k :| 0 <= k < |front| && front[k] == (prev[i].repo, prev[i].currentTotal);
          assert current[k] == front[k];
        }
      }
    }
  }

  /**
   * A repo of `current_counts` is in `repo_updates` exactly when its count rose,
   * and then with `new_stars == current[repo] - stored.get(repo, 0)` and
   * `current_total == current[repo]`.
   */
  lemma DeltaMembership(stored: Counts, current: Counts, i: nat)
    requires DistinctKeys(current) && i < |current|
    ensures current[i].0 in UpdateKeys(Delta(stored, current))
      <==> current[i].1 - Get(stored, current[i].0, 0) > 0
    ensures forall u :: u in Delta(stored, current) && u.repo == current[i].0 ==>
      u.currentTotal == current[i].1 && u.newStars == current[i].1 - Get(stored, current[i].0, 0)
  {
    var us := Delta(stored, current);
    var p := current[i];
    forall u | u in us && u.repo == p.0
      ensures u.currentTotal == p.1
    {
      var k :| 0 <= k < |current| && current[k] == (u.repo, u.currentTotal);
      assert k == i;
    }
    if p.0 in UpdateKeys(us) {
      var j :| 0 <= j < |us| && UpdateKeys(us)[j] == p.0;
      assert us[j] in us;
    }
    if p.1 - Get(stored, p.0, 0) > 0 {
      var u := Update(p.0, p.1 - Get(stored, p.0, 0), p.1);
      assert u in us;
      var j :| 0 <= j < |us| && us[j] == u;
      assert UpdateKeys(us)[j] == p.0;
    }
  }

  /** A repo absent from the stored snapshot counts as stored 0: its whole positive count is new. */
  lemma NewRepoReportedInFull(stored: Counts, current: Counts, i: nat)
    requires i < |current| && current[i].0 !in Keys(stored) && current[i].1 > 0
    ensures Update(current[i].0, current[i].1, current[i].1) in Delta(stored, current)
  {
    var p := current[i];
    assert forall j :: 0 <= j < |stored| ==> stored[j].0 != p.0 by {
      forall j | 0 <= j < |stored| ensures stored[j].0 != p.0 {
        assert Keys(stored)[j] == stored[j].0;
      }
    }
    GetAbsent(stored, p.0, 0);
    assert p in current;
  }

  /** The diff loop of `main`, filling `repo_updates` one repo at a time. */
  method ComputeUpdates(stored: Counts, current: Counts) returns (updates: seq<Update>)
    ensures updates == Delta(stored, current)
  {
    updates := [];
    var i := 0;
    while i < |current|
      invariant 0 <= i <= |current|
      invariant updates == Delta(stored, current[..i])
    {
      var (repo, currentCount) := current[i];
      var storedCount := Get(stored, repo, 0);
      var newStars := currentCount - storedCount;
      assert current[..i + 1][..i] == current[..i];
      if newStars > 0 {
        updates := updates + [Update(repo, newStars, currentCount)];
      }
      i := i + 1;
    }
    assert current[..i] == current;
  }

  /** `sum(data['new_stars'] for data in repo_updates.values())`. */
  function TotalNew(us: seq<Update>): (total: int)
    ensures AllPositive(us) ==> total >= |us|
    ensures AllPositive(us) ==> (total > 0 <==> us != [])
  {
    if us == [] then 0
    else
      assert forall u :: u in us[..|us| - 1] ==> u in us;
      TotalNew(us[..|us| - 1]) + us[|us| - 1].newStars
  }

  /** `total_new` over `repo_updates` is never negative, and positive exactly when some repo gained stars. */
  lemma TotalNewOfDelta(stored: Counts, current: Counts)
    ensures TotalNew(Delta(stored, current)) >= 0
    ensures TotalNew(Delta(stored, current)) > 0 <==> Delta(stored, current) != []
  {
  }

  /** When no repo's count rose above its stored count, `repo_updates` is empty. */
  lemma {:induction false} NoRiseNoUpdates(stored: Counts, current: Counts)
    requires forall i :: 0 <= i < |current| ==> current[i].1 <= Get(stored, current[i].0, 0)
    ensures Delta(stored, current) == []
  {
    if current != [] {
      var front := current[..|current| - 1];
      assert forall i :: 0 <= i < |front| ==> front[i] == current[i];
      NoRiseNoUpdates(stored, front);
    }
  }

  /** A snapshot has no gains against itself: re-running on unchanged counts reports nothing. */
  lemma DeltaOfItself(counts: Counts)
    requires DistinctKeys(counts)
    ensures Delta(counts, counts) == []
  {
    forall i | 0 <= i < |counts| ensures counts[i].1 <= Get(counts, counts[i].0, 0) {
      GetPresent(counts, i, 0);
    }
    NoRiseNoUpdates(counts, counts);
  }

  /** The example of a snapshot {"a": 5} and fresh counts {"a": 5, "b": 2}. */
  lemma DeltaExample()
    ensures Delta([("a", 5)], [("a", 5), ("b", 2)]) == [Update("b", 2, 2)]
  {
    var current: Counts := [("a", 5), ("b", 2)];
    assert current[..1] == [("a", 5)];
    assert current[..1][..0] == [];
    assert Get([("a", 5)], "a", 0) == 5;
    assert Get([("a", 5)], "b", 0) == 0;
  }
}
