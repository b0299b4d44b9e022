/**
 * `get_all_pages`: follow the server's next-page links and gather every
 * page's JSON list. The HTTP exchange is abstracted to the sequence of
 * responses the server gives along its next-link chain (the last one carries
 * no next link); a response whose status `raise_for_status` rejects stops
 * the walk with an error.
 */
module GitHubPages {
  import opened Outcomes
  import opened RepoCounts

  /** One HTTP response: its status code and the repos in its JSON body. */
  datatype Response = Response(status: int, repos: seq<Repo>)

  /** `raise_for_status` raises for client errors (4xx) and server errors (5xx). */
  predicate RaisesForStatus(r: Response) {
    400 <= r.status < 600
  }

  /** Every page's repos, page after page. */
  function Concat(pages: seq<Response>): seq<Repo> {
    if pages == [] then [] else pages[0].repos + Concat(pages[1..])
  }

  /**
   * What `get_all_pages` returns, or the status code of the HTTP error it
   * raises: the pages are read in order and the first failing one ends the walk.
   */
  function AllPages(pages: seq<Response>): (r: Result<seq<Repo>, int>)
    ensures r.Success? <==> forall i :: 0 <= i < |pages| ==> !RaisesForStatus(pages[i])
    ensures r.Success? ==> r.value == Concat(pages)
    ensures r.Failure? ==> 400 <= r.error < 600
  {
    if pages == [] then Success([])
    else if RaisesForStatus(pages[0]) then Failure(pages[0].status)
    else
      assert forall i :: 1 <= i < |pages| ==> pages[1..][i - 1] == pages[i];
      match AllPages(pages[1..])
      case Success(rest) => Success(pages[0].repos + rest)
      case Failure(status) => Failure(status)
  }

  /** The error reported is the status of the first failing page; later pages are never read. */
  lemma {:induction false} AllPagesFirstFailure(pages: seq<Response>, i: nat)
    requires i < |pages| && RaisesForStatus(pages[i])
    requires forall j :: 0 <= j < i ==> !RaisesForStatus(pages[j])
    ensures AllPages(pages) == Failure(pages[i].status)
  {
    if i > 0 {
      assert pages[1..][i - 1] == pages[i];
      AllPagesFirstFailure(pages[1..], i - 1);
    }
  }

  /** The loop of `get_all_pages`: `results.extend(...)` page by page until no next link. */
  method GetAllPages(pages: seq<Response>) returns (r: Result<seq<Repo>, int>)
    ensures r == AllPages(pages)
  {
    var results: seq<Repo> := [];
    var i := 0;
    while i < |pages|
      invariant 0 <= i <= |pages|
      invariant forall j :: 0 <= j < i ==> !RaisesForStatus(pages[j])
      invariant results + Concat(pages[i..]) == Concat(pages)
    {
      var response := pages[i];
      if RaisesForStatus(response) {
        AllPagesFirstFailure(pages, i);
        return Failure(response.status);
      }
      assert pages[i..][1..] == pages[i + 1..];
      results := results + response.repos;
      i := i + 1;
    }
    assert pages[i..] == [] && results + [] == results;
    return Success(results);
  }
}
