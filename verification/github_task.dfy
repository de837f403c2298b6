/**
 * Model of examples/github_task/main.py: the commit list of a repository is
 * fetched page by page from GitHub's REST API and then summarised. The HTTP
 * session is replaced by the sequence of responses the server gives:
 * `pages[i]` answers the request for page i+1, and every page after the
 * last one is empty (a repository has finitely many commits).
 */
module GithubTask {
  import opened Common
  import opened Counter
  import Connectator

  /** One element of the commits JSON list; only `commit["committer"]["login"]`
      is used. */
  datatype Commit = Commit(committerLogin: string)

  /** The server's answer to one page request. */
  datatype Response = Page(commits: seq<Commit>) | HttpError(status: int)

  /** Why an operation raised. */
  datatype Failure = RequestFailed(status: int) | EmptyCommitList

  /** The answer to the request for page `page` (numbered from 1). */
  function Fetch(pages: seq<Response>, page: nat): Response
  {
    if 1 <= page <= |pages| then pages[page - 1] else Page([])
  }

  /** The reference result of the pagination: the pages from `page` on are
      concatenated up to the first empty one; an error on the way aborts. */
  function CombinedFrom(pages: seq<Response>, page: nat): Result<seq<Commit>, Failure>
    requires page >= 1
    decreases |pages| + 1 - page
  {
    match Fetch(pages, page)
    case HttpError(status) => Err(RequestFailed(status))
    case Page(commits) =>
      if commits == [] then Ok([])
      else
        match CombinedFrom(pages, page + 1)
        case Ok(rest) => Ok(commits + rest)
        case Err(f) => Err(f)
  }

  /** The commits already gathered, put in front of the rest of the
      aggregation. */
  function Prepend(gathered: seq<Commit>, rest: Result<seq<Commit>, Failure>): (r: Result<seq<Commit>, Failure>)
    ensures rest.Err? ==> r == rest
    ensures rest.Ok? ==> r.Ok? && |r.value| == |gathered| + |rest.value|
    ensures rest.Ok? ==> r.value[..|gathered|] == gathered && r.value[|gathered|..] == rest.value
  {
    match rest
    case Ok(tail) => Ok(gathered + tail)
    case Err(f) => Err(f)
  }

  lemma PrependTwice(a: seq<Commit>, b: seq<Commit>, rest: Result<seq<Commit>, Failure>)
    ensures Prepend(a, Prepend(b, rest)) == Prepend(a + b, rest)
    ensures Prepend([], rest) == rest && Prepend(a, Ok([])) == Ok(a)
  {
    if rest.Ok? {
      assert a + (b + rest.value) == (a + b) + rest.value;
      assert [] + rest.value == rest.value;
    }
    assert a + [] == a;
  }

  /** `_perform_paginated_requests`: request page 1, then each following page
      while the previous one was not empty, and concatenate the answers. */
  method PerformPaginatedRequests(pages: seq<Response>) returns (r: Result<seq<Commit>, Failure>)
    ensures r == CombinedFrom(pages, 1)
  {
    var page := 1;
    var combinedJson: seq<Commit> := [];
    var currentResponseJson: seq<Commit> := [];
    PrependTwice([], [], CombinedFrom(pages, 1));
    while |currentResponseJson| != 0 || page == 1
      invariant page >= 1
      invariant page == 1 ==> combinedJson == [] && currentResponseJson == []
      invariant page > |pages| + 1 ==> currentResponseJson == []
      invariant currentResponseJson == [] && page > 1 ==> CombinedFrom(pages, 1) == Ok(combinedJson)
      invariant currentResponseJson != [] || page == 1 ==>
        CombinedFrom(pages, 1) == Prepend(combinedJson, CombinedFrom(pages, page))
      decreases |pages| + 2 - page
    {
      var response := Fetch(pages, page);
      if response.HttpError? {
        return Err(RequestFailed(response.status));
      }
      PrependTwice(combinedJson, response.commits, CombinedFrom(pages, page + 1));
      currentResponseJson := response.commits;
      combinedJson := combinedJson + currentResponseJson;
      page := page + 1;
    }
    r := Ok(combinedJson);
  }

  /** Page 1 is always requested, and the result is the in-order
      concatenation of the pages before the first empty one, when no request
      before it failed. */
  lemma {:induction false} CombinedIsChain(pages: seq<Response>, k: nat)
    requires k <= |pages|
    requires forall i :: 0 <= i < k ==> pages[i].Page? && pages[i].commits != []
    requires k < |pages| ==> pages[k] == Page([])
    ensures CombinedFrom(pages, 1) == Ok(Connectator.ChainGenerator(Commits(pages[..k])))
  {
    CombinedFromIsChain(pages, 1, k);
    assert pages[0..k] == pages[..k];
  }

  lemma {:induction false} CombinedFromIsChain(pages: seq<Response>, page: nat, k: nat)
    requires 1 <= page <= k + 1 && k <= |pages|
    requires forall i :: 0 <= i < k ==> pages[i].Page? && pages[i].commits != []
    requires k < |pages| ==> pages[k] == Page([])
    ensures CombinedFrom(pages, page) == Ok(Connectator.ChainGenerator(Commits(pages[page - 1..k])))
    decreases k + 1 - page
  {
    if page <= k {
      CombinedFromIsChain(pages, page + 1, k);
      assert pages[page - 1..k][1..] == pages[page..k];
    } else {
      assert pages[page - 1..k] == [];
    }
  }

  /** The commit lists of a run of successful pages. */
  function Commits(pages: seq<Response>): (r: seq<seq<Commit>>)
    requires forall i :: 0 <= i < |pages| ==> pages[i].Page?
    ensures |r| == |pages|
    ensures forall i :: 0 <= i < |pages| ==> r[i] == pages[i].commits
  {
    if pages == [] then [] else [pages[0].commits] + Commits(pages[1..])
  }

  /** A failed request on page `k+1`, reached because every page before it
      was non-empty, aborts the whole aggregation. */
  lemma {:induction false} FailureAborts(pages: seq<Response>, k: nat)
    requires k < |pages| && pages[k].HttpError?
    requires forall i :: 0 <= i < k ==> pages[i].Page? && pages[i].commits != []
    ensures CombinedFrom(pages, 1) == Err(RequestFailed(pages[k].status))
  {
    FailureAbortsFrom(pages, 1, k);
  }

  lemma {:induction false} FailureAbortsFrom(pages: seq<Response>, page: nat, k: nat)
    requires 1 <= page <= k + 1 && k < |pages| && pages[k].HttpError?
    requires forall i :: 0 <= i < k ==> pages[i].Page? && pages[i].commits != []
    ensures CombinedFrom(pages, page) == Err(RequestFailed(pages[k].status))
    decreases k + 1 - page
  {
    if page <= k {
      FailureAbortsFrom(pages, page + 1, k);
    }
  }

  /** The login of every commit, in order. */
  function Logins(commits: seq<Commit>): (logins: seq<string>)
    ensures |logins| == |commits|
    ensures forall i :: 0 <= i < |commits| ==> logins[i] == commits[i].committerLogin
  {
    if commits == [] then [] else [commits[0].committerLogin] + Logins(commits[1..])
  }

  /** `get_committers`: the set of committer logins over all pages. */
  method GetCommitters(pages: seq<Response>) returns (r: Result<set<string>, Failure>)
    ensures CombinedFrom(pages, 1).Err? ==> r == Err(CombinedFrom(pages, 1).error)
    ensures CombinedFrom(pages, 1).Ok? ==> r.Ok?
    ensures CombinedFrom(pages, 1).Ok? ==> forall login :: login in r.value <==>
              exists c :: c in CombinedFrom(pages, 1).value && c.committerLogin == login
  {
    var commitsData := PerformPaginatedRequests(pages);
    if commitsData.Err? {
      return Err(commitsData.error);
    }
    r := Ok(set c | c in commitsData.value :: c.committerLogin);
  }

  /** `count_commits_last_month`: the number of commits the server lists (the
      `since` filter is applied by the server, not here). */
  method CountCommitsLastMonth(pages: seq<Response>) returns (r: Result<nat, Failure>)
    ensures CombinedFrom(pages, 1).Err? ==> r == Err(CombinedFrom(pages, 1).error)
    ensures CombinedFrom(pages, 1).Ok? ==> r == Ok(|CombinedFrom(pages, 1).value|)
  {
    var commitData := PerformPaginatedRequests(pages);
    if commitData.Err? {
      return Err(commitData.error);
    }
    r := Ok(|commitData.value|);
  }

  /** `max(counter, key=counter.get)`: scanning the counter's keys in order,
      the position of the first key whose count is never exceeded. */
  function MaxPosition(logins: seq<string>, keys: seq<string>): (b: nat)
    requires |keys| > 0
    ensures b < |keys|
    ensures forall i :: 0 <= i < |keys| ==> CountOf(logins, keys[i]) <= CountOf(logins, keys[b])
    ensures forall i :: 0 <= i < b ==> CountOf(logins, keys[i]) < CountOf(logins, keys[b])
  {
    if |keys| == 1 then 0
    else
      var sofar := MaxPosition(logins, keys[..|keys| - 1]);
      if CountOf(logins, keys[|keys| - 1]) > CountOf(logins, keys[sofar]) then |keys| - 1
      else sofar
  }

  /** The login with the most commits; on a tie, the one whose first commit
      comes first. Fails when there are no commits at all. */
  function MostActive(logins: seq<string>): (r: Result<string, Failure>)
    ensures r.Err? <==> logins == []
  {
    if logins == [] then Err(EmptyCommitList)
    else
      var keys := Keys(logins);
      assert logins[0] in keys;
      Ok(keys[MaxPosition(logins, keys)])
  }

  /** Where a committer sits among the counter's keys. */
  function IndexOf(keys: seq<string>, x: string): (i: nat)
    requires x in keys
    ensures i < |keys| && keys[i] == x
  {
    if keys[0] == x then 0 else 1 + IndexOf(keys[1..], x)
  }

  /** The promised meaning of `MostActive`: the result is a committer with
      maximal count, and any other committer with the same count made their
      first commit later. */
  lemma MostActiveIsFirstMaximal(logins: seq<string>, other: string)
    requires logins != [] && other in logins
    ensures MostActive(logins).value in logins
    ensures CountOf(logins, other) <= CountOf(logins, MostActive(logins).value)
    ensures CountOf(logins, other) == CountOf(logins, MostActive(logins).value)
            ==> FirstIndex(logins, MostActive(logins).value) <= FirstIndex(logins, other)
  {
    var keys := Keys(logins);
    var b := MaxPosition(logins, keys);
    assert MostActive(logins) == Ok(keys[b]);
    assert other in keys by {
      assert logins[FirstIndex(logins, other)] == other;
    }
    var i := IndexOf(keys, other);
    assert keys[i] == other;
    assert CountOf(logins, keys[i]) <= CountOf(logins, keys[b]);
    if b < i {
      KeysInFirstSeenOrder(logins, b, i);
    } else if i < b {
      assert CountOf(logins, keys[i]) < CountOf(logins, keys[b]);
    }
  }

  /** `get_most_active_committer`. */
  method GetMostActiveCommitter(pages: seq<Response>) returns (r: Result<string, Failure>)
    ensures CombinedFrom(pages, 1).Err? ==> r == Err(CombinedFrom(pages, 1).error)
    ensures CombinedFrom(pages, 1).Ok? ==> r == MostActive(Logins(CombinedFrom(pages, 1).value))
  {
    var commitData := PerformPaginatedRequests(pages);
    if commitData.Err? {
      return Err(commitData.error);
    }
    var committers := Logins(commitData.value);
    r := MostActive(committers);
  }
}
