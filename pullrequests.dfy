/**
 * Fetching the open pull requests of every configured repository (`getPullRequests`) and
 * normalising them into `PR` records (`getPRInfos`). The GitHub client and its
 * `PullRequests.List` call are not modelled: a `ListPullRequests` oracle stands for them.
 */
module PullRequests {
  import opened Results
  import opened Errors
  import opened Strings

  datatype Label = Label(name: string)

  datatype User = User(login: string)

  /** The fields of a GitHub pull request that the exporter reads. */
  datatype RawPullRequest = RawPullRequest(
    number: int,
    labels: seq<Label>,
    user: User,
    requestedReviewers: seq<User>,
    url: string)

  /** The normalised record, `PR` in the source. */
  datatype PR = PR(
    number: int,
    labels: seq<Label>,
    user: string,
    requestedReviewers: seq<User>,
    repo: string)

  /** The remote listing of one repository's pull requests, from the token, the owner and the
      repository name: the first page of results, or an error message. */
  type ListPullRequests = (string, string, string) -> Result<seq<RawPullRequest>, string>

  // ---- getPullRequests ----

  /** The owner and name of a repository entry: the first two pieces of the entry split on
      '/'. Indexing the second piece panics when the entry has no '/'. */
  function SplitRepository(entry: string): (r: Result<(string, string), Error>)
    ensures r.Ok? <==> '/' in entry
    ensures r.Err? ==> r.error == IndexOutOfRange(1, 1)
    ensures r.Ok? ==> '/' !in r.value.0 && '/' !in r.value.1
    ensures r.Ok? ==> r.value.0 + "/" + r.value.1 <= entry
    ensures r.Ok? ==> var n := |r.value.0| + 1 + |r.value.1|; n == |entry| || (n < |entry| && entry[n] == '/')
  {
    var repo := Split(entry, '/');
    if |repo| < 2 then Err(IndexOutOfRange(1, |repo|))
    else FirstTwoPieces(entry); Ok((repo[0], repo[1]))
  }

  /** An entry with a '/' starts with its first piece, '/', and its second piece, followed by
      nothing or by the next '/'. */
  lemma FirstTwoPieces(entry: string)
    requires |Split(entry, '/')| >= 2
    ensures var parts := Split(entry, '/');
            var n := |parts[0]| + 1 + |parts[1]|;
            && parts[0] + "/" + parts[1] <= entry
            && (n == |entry| || (n < |entry| && entry[n] == '/'))
  {
    JoinSplit(entry, '/');
    JoinFirstTwo(Split(entry, '/'), '/');
  }

  /** A separator-free owner and name, written "owner/name", split back into the two. */
  lemma SplitRepositoryOfPair(owner: string, name: string)
    requires '/' !in owner && '/' !in name
    ensures SplitRepository(owner + "/" + name) == Ok((owner, name))
  {
    SplitJoin([owner, name], '/');
    assert Join([owner, name], '/') == owner + "/" + name by {
      JoinCons(owner, [name], '/');
    }
  }

  /** Listing one repository entry: its owner/name split, then the remote call. */
  function FetchRepository(token: string, entry: string, list: ListPullRequests): (r: Result<seq<RawPullRequest>, Error>) {
    match SplitRepository(entry)
    case Err(e) => Err(e)
    case Ok((org, name)) =>
      match list(token, org, name)
      case Ok(prs) => Ok(prs)
      case Err(cause) => Err(ListFailed(cause))
  }

  /** Every entry's pull requests, in entry order; the first failure is the result. */
  function FetchAll(token: string, entries: seq<string>, list: ListPullRequests): (r: Result<seq<RawPullRequest>, Error>)
    decreases |entries|
  {
    if entries == [] then Ok([])
    else
      match FetchRepository(token, entries[0], list)
      case Err(e) => Err(e)
      case Ok(prs) => Prepend(prs, FetchAll(token, entries[1..], list))
  }

  /** `getPullRequests`: lists each repository in turn and appends its pull requests;
      a failed listing returns the error and none of the pull requests gathered so far. */
  method GetPullRequests(token: string, repositories: seq<string>, list: ListPullRequests)
    returns (r: Result<seq<RawPullRequest>, Error>)
    ensures r == FetchAll(token, repositories, list)
  {
    var prs: seq<RawPullRequest> := [];
    for i := 0 to |repositories|
      invariant FetchAll(token, repositories, list) == Prepend(prs, FetchAll(token, repositories[i..], list))
    {
      assert repositories[i..][1..] == repositories[i + 1..];
      var repo := Split(repositories[i], '/');
      if |repo| < 2 {
        return Err(IndexOutOfRange(1, |repo|));
      }
      var org, name := repo[0], repo[1];
      var prsInRepo := list(token, org, name);
      if prsInRepo.Err? {
        return Err(ListFailed(prsInRepo.error));
      }
      PrependAppend(prs, prsInRepo.value, FetchAll(token, repositories[i + 1..], list));
      prs := prs + prsInRepo.value;
    }
    assert repositories[|repositories|..] == [];
    assert prs + [] == prs;
    return Ok(prs);
  }

  /** Fetching `a + b` fetches `a`, then `b`, and concatenates the two lists in that order;
      when `a` fails, `b` is not consulted. */
  lemma {:induction false} FetchAllAppend(token: string, a: seq<string>, b: seq<string>, list: ListPullRequests)
    ensures FetchAll(token, a + b, list)
         == match FetchAll(token, a, list)
            case Ok(prs) => Prepend(prs, FetchAll(token, b, list))
            case Err(e) => Err(e)
    decreases |a|
  {
    if a == [] {
      assert a + b == b;
      assert Prepend([], FetchAll(token, b, list)) == FetchAll(token, b, list);
    } else {
      assert (a + b)[0] == a[0];
      assert (a + b)[1..] == a[1..] + b;
      FetchAllAppend(token, a[1..], b, list);
      var first := FetchRepository(token, a[0], list);
      if first.Ok? && FetchAll(token, a[1..], list).Ok? {
        PrependAppend(first.value, FetchAll(token, a[1..], list).value, FetchAll(token, b, list));
      }
    }
  }

  /** The fetch succeeds exactly when every entry has an owner/name split and its listing
      succeeds; otherwise its error is that of the first entry that fails. */
  lemma {:induction false} FetchAllOutcome(token: string, entries: seq<string>, list: ListPullRequests)
    ensures FetchAll(token, entries, list).Ok?
        <==> forall i :: 0 <= i < |entries| ==> FetchRepository(token, entries[i], list).Ok?
    ensures FetchAll(token, entries, list).Err? ==>
      exists k :: 0 <= k < |entries|
        && (forall j :: 0 <= j < k ==> FetchRepository(token, entries[j], list).Ok?)
        && FetchRepository(token, entries[k], list) == Err(FetchAll(token, entries, list).error)
    decreases |entries|
  {
    if entries != [] {
      FetchAllOutcome(token, entries[1..], list);
      assert forall i :: 1 <= i < |entries| ==> entries[1..][i - 1] == entries[i];
      var r := FetchAll(token, entries, list);
      if r.Err? && FetchRepository(token, entries[0], list).Ok? {
        var k :| 0 <= k < |entries[1..]|
          && (forall j :: 0 <= j < k ==> FetchRepository(token, entries[1..][j], list).Ok?)
          && FetchRepository(token, entries[1..][k], list) == Err(FetchAll(token, entries[1..], list).error);
        assert FetchRepository(token, entries[k + 1], list) == Err(r.error);
      }
    }
  }

  /** An entry without '/' makes the fetch panic unless an earlier entry failed first. */
  lemma EntryWithoutSlashPanics(token: string, entries: seq<string>, list: ListPullRequests, k: nat)
    requires k < |entries| && '/' !in entries[k]
    requires forall j :: 0 <= j < k ==> FetchRepository(token, entries[j], list).Ok?
    ensures FetchAll(token, entries, list) == Err(IndexOutOfRange(1, 1))
  {
    FetchAllAppend(token, entries[..k], entries[k..], list);
    FetchAllOutcome(token, entries[..k], list);
    assert entries[..k] + entries[k..] == entries;
    assert entries[k..][0] == entries[k];
  }

  // ---- getPRInfos ----

  /** The repository of a pull request: segments 4 and 5 of its API URL split on '/',
      joined as "owner/name". Indexing a missing segment panics. */
  function RepoOfURL(url: string): (r: Result<string, Error>)
    ensures r.Ok? <==> multiset(url)['/'] >= 5
    ensures r.Err? ==> r.error.IndexOutOfRange? && r.error.length == multiset(url)['/'] + 1
    ensures r.Err? ==> r.error.index == if multiset(url)['/'] < 4 then 4 else 5
  {
    var repos := Split(url, '/');
    if |repos| <= 4 then Err(IndexOutOfRange(4, |repos|))
    else if |repos| == 5 then Err(IndexOutOfRange(5, 5))
    else Ok(repos[4] + "/" + repos[5])
  }

  /** A URL made of separator-free segments names the repository of its segments 4 and 5:
      https://api.github.com/repos/acme/widgets/pulls/42 names "acme/widgets". */
  lemma RepoOfURLOfSegments(segments: seq<string>)
    requires |segments| >= 6
    requires forall i :: 0 <= i < |segments| ==> '/' !in segments[i]
    ensures RepoOfURL(Join(segments, '/')) == Ok(segments[4] + "/" + segments[5])
  {
    SplitJoin(segments, '/');
  }

  /** The repository label of a pull request splits back into the same owner and name that
      `getPullRequests` would list. */
  lemma RepoOfURLIsRepositoryEntry(url: string)
    requires RepoOfURL(url).Ok?
    ensures SplitRepository(RepoOfURL(url).value) == Ok((Split(url, '/')[4], Split(url, '/')[5]))
  {
    var repos := Split(url, '/');
    SplitRepositoryOfPair(repos[4], repos[5]);
  }

  /** One pull request as a `PR` record: the number, labels, author login and requested
      reviewers copied, the repository rebuilt from the URL. */
  function NormalizeOne(pr: RawPullRequest): (r: Result<PR, Error>) {
    match RepoOfURL(pr.url)
    case Err(e) => Err(e)
    case Ok(repo) => Ok(PR(pr.number, pr.labels, pr.user.login, pr.requestedReviewers, repo))
  }

  /** Every pull request normalised, in order; the first panic is the result. */
  function Normalize(prs: seq<RawPullRequest>): (r: Result<seq<PR>, Error>)
    decreases |prs|
  {
    if prs == [] then Ok([])
    else
      match NormalizeOne(prs[0])
      case Err(e) => Err(e)
      case Ok(info) => Prepend([info], Normalize(prs[1..]))
  }

  /** `getPRInfos`: one `PR` record appended per pull request. */
  method GetPRInfos(prs: seq<RawPullRequest>) returns (r: Result<seq<PR>, Error>)
    ensures r == Normalize(prs)
  {
    var prInfos: seq<PR> := [];
    for i := 0 to |prs|
      invariant Normalize(prs) == Prepend(prInfos, Normalize(prs[i..]))
    {
      assert prs[i..][1..] == prs[i + 1..];
      var repos := Split(prs[i].url, '/');
      if |repos| <= 4 {
        return Err(IndexOutOfRange(4, |repos|));
      }
      if |repos| == 5 {
        return Err(IndexOutOfRange(5, 5));
      }
      var info := PR(prs[i].number, prs[i].labels, prs[i].user.login, prs[i].requestedReviewers,
                     repos[4] + "/" + repos[5]);
      PrependAppend(prInfos, [info], Normalize(prs[i + 1..]));
      prInfos := prInfos + [info];
    }
    assert prs[|prs|..] == [];
    assert prInfos + [] == prInfos;
    return Ok(prInfos);
  }

  /** Normalisation succeeds exactly when every URL has a repository segment pair; it then
      gives one record per pull request, in order, with the fields copied and the repository
      taken from the URL. */
  lemma {:induction false} NormalizeOutcome(prs: seq<RawPullRequest>)
    ensures Normalize(prs).Ok? <==> forall i :: 0 <= i < |prs| ==> RepoOfURL(prs[i].url).Ok?
    ensures Normalize(prs).Ok? ==>
      var infos := Normalize(prs).value;
      && |infos| == |prs|
      && forall i :: 0 <= i < |prs| ==>
           && infos[i].number == prs[i].number
           && infos[i].labels == prs[i].labels
           && infos[i].user == prs[i].user.login
           && infos[i].requestedReviewers == prs[i].requestedReviewers
           && infos[i].repo == RepoOfURL(prs[i].url).value
    decreases |prs|
  {
    if prs != [] {
      NormalizeOutcome(prs[1..]);
      assert forall i :: 1 <= i < |prs| ==> prs[1..][i - 1] == prs[i];
    }
  }

  /** A failed normalisation reports the panic of the first URL that is too short. */
  lemma {:induction false} NormalizeFirstFailure(prs: seq<RawPullRequest>)
    requires Normalize(prs).Err?
    ensures exists k :: (0 <= k < |prs|
                         && (forall j :: 0 <= j < k ==> RepoOfURL(prs[j].url).Ok?)
                         && RepoOfURL(prs[k].url) == Err(Normalize(prs).error))
    decreases |prs|
  {
    if RepoOfURL(prs[0].url).Ok? {
      NormalizeFirstFailure(prs[1..]);
      var k :| 0 <= k < |prs[1..]|
        && (forall j :: 0 <= j < k ==> RepoOfURL(prs[1..][j].url).Ok?)
        && RepoOfURL(prs[1..][k].url) == Err(Normalize(prs[1..]).error);
      assert forall j :: 0 <= j < k + 1 ==> RepoOfURL(prs[j].url).Ok? by {
        forall j | 1 <= j < k + 1 ensures RepoOfURL(prs[j].url).Ok? {
          assert prs[j] == prs[1..][j - 1];
        }
      }
      assert RepoOfURL(prs[k + 1].url) == Err(Normalize(prs).error);
    } else {
      assert RepoOfURL(prs[0].url) == Err(Normalize(prs).error);
    }
  }
}
