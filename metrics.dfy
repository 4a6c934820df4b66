/**
 * Publishing the pull requests as gauge series (`snapshot`). The Prometheus gauge family is a
 * `Registry` holding a map from label tuple to gauge value; only `Reset` and
 * `With(labels).Set(value)` of the family are modelled.
 */
module Metrics {
  import opened Results
  import opened Errors
  import opened Strings
  import opened Config
  import opened PullRequests

  /** The values of the gauge's labels "number", "label", "author", "reviewer" and "repo",
      in that order (`label` is a Dafny keyword, so that field is `labels`). */
  datatype LabelTuple = LabelTuple(number: string, labels: string, author: string, reviewer: string, repo: string)

  /** The gauge family `github_pr_prometheus_exporter_pull_request_count`. */
  class Registry {
    var series: map<LabelTuple, int>

    constructor ()
      ensures series == map[]
    {
      series := map[];
    }

    /** Deletes every series of the family. */
    method Reset()
      modifies this
      ensures series == map[]
    {
      series := map[];
    }

    /** Sets the gauge of one label tuple, creating its series when it is new. */
    method Set(labels: LabelTuple, value: int)
      modifies this
      ensures series == old(series)[labels := value]
    {
      series := series[labels := value];
    }
  }

  // Message prefixes `snapshot` puts on the errors it returns.
  const ReadConfigContext: string := "failed to read Datadog Config"
  const RepositoriesContext: string := "failed to get GitHub repository name"
  const PullRequestsContext: string := "failed to get PullRequests"

  function LabelNames(labels: seq<Label>): (names: seq<string>)
    ensures |names| == |labels|
    ensures forall i :: 0 <= i < |labels| ==> names[i] == labels[i].name
  {
    seq(|labels|, i requires 0 <= i < |labels| => labels[i].name)
  }

  function ReviewerLogins(reviewers: seq<User>): (logins: seq<string>)
    ensures |logins| == |reviewers|
    ensures forall i :: 0 <= i < |reviewers| ==> logins[i] == reviewers[i].login
  {
    seq(|reviewers|, i requires 0 <= i < |reviewers| => reviewers[i].login)
  }

  /** The label tuple of one record: the decimal number, the label names joined with ",",
      the author, the reviewer logins joined with ",", and the repository. */
  function SeriesOf(info: PR): (labels: LabelTuple) {
    LabelTuple(
      Itoa(info.number),
      Join(LabelNames(info.labels), ','),
      info.user,
      Join(ReviewerLogins(info.requestedReviewers), ','),
      info.repo)
  }

  /** The label tuple of one record, as the body of `snapshot`'s loop builds it: fresh
      accumulators for the label names and the reviewer logins, filled in source order. */
  method SeriesLabels(info: PR) returns (labels: LabelTuple)
    ensures labels == SeriesOf(info)
  {
    var labelsTag: seq<string> := [];
    var reviewersTag: seq<string> := [];
    for i := 0 to |info.labels|
      invariant |labelsTag| == i
      invariant forall k :: 0 <= k < i ==> labelsTag[k] == info.labels[k].name
    {
      labelsTag := labelsTag + [info.labels[i].name];
    }
    for i := 0 to |info.requestedReviewers|
      invariant |reviewersTag| == i
      invariant forall k :: 0 <= k < i ==> reviewersTag[k] == info.requestedReviewers[k].login
    {
      reviewersTag := reviewersTag + [info.requestedReviewers[i].login];
    }
    assert labelsTag == LabelNames(info.labels);
    assert reviewersTag == ReviewerLogins(info.requestedReviewers);
    labels := LabelTuple(Itoa(info.number), Join(labelsTag, ','), info.user, Join(reviewersTag, ','), info.repo);
  }

  /** What a tuple's fields say about its record: the number field parses back to the number;
      the label and reviewer fields split back into the names and logins when there is at least
      one and none holds a comma, and are empty when there are none. */
  lemma SeriesOfDecodes(info: PR)
    ensures ParseDecimal(SeriesOf(info).number) == Some(info.number)
    ensures info.labels == [] ==> SeriesOf(info).labels == ""
    ensures info.requestedReviewers == [] ==> SeriesOf(info).reviewer == ""
    ensures |info.labels| > 0 && (forall i :: 0 <= i < |info.labels| ==> ',' !in info.labels[i].name)
            ==> Split(SeriesOf(info).labels, ',') == LabelNames(info.labels)
    ensures |info.requestedReviewers| > 0
            && (forall i :: 0 <= i < |info.requestedReviewers| ==> ',' !in info.requestedReviewers[i].login)
            ==> Split(SeriesOf(info).reviewer, ',') == ReviewerLogins(info.requestedReviewers)
  {
    ItoaRoundTrip(info.number);
    if |info.labels| > 0 && (forall i :: 0 <= i < |info.labels| ==> ',' !in info.labels[i].name) {
      SplitJoin(LabelNames(info.labels), ',');
    }
    if |info.requestedReviewers| > 0
       && (forall i :: 0 <= i < |info.requestedReviewers| ==> ',' !in info.requestedReviewers[i].login) {
      SplitJoin(ReviewerLogins(info.requestedReviewers), ',');
    }
  }

  /** Records with different numbers, authors or repositories never share a series. */
  lemma SeriesOfSeparates(a: PR, b: PR)
    requires SeriesOf(a) == SeriesOf(b)
    ensures a.number == b.number && a.user == b.user && a.repo == b.repo
  {
    ItoaInjective(a.number, b.number);
  }

  /** The series after resetting the family and setting the gauge of each record's tuple to 1,
      record by record; a later record with the same tuple overwrites the earlier one. */
  function Published(infos: seq<PR>): (series: map<LabelTuple, int>)
    decreases |infos|
  {
    if infos == [] then map[]
    else Published(infos[..|infos| - 1])[SeriesOf(infos[|infos| - 1]) := 1]
  }

  /** After publishing, the series are exactly the tuples of the current records, each with the
      value 1: a tuple of no current record (one from an earlier cycle) is gone. */
  lemma {:induction false} PublishedSeries(infos: seq<PR>)
    ensures Published(infos).Keys == set info | info in infos :: SeriesOf(info)
    ensures forall t :: t in Published(infos) ==> Published(infos)[t] == 1
    decreases |infos|
  {
    if infos != [] {
      var n := |infos| - 1;
      PublishedSeries(infos[..n]);
      assert infos == infos[..n] + [infos[n]];
      assert (set info | info in infos :: SeriesOf(info))
          == (set info | info in infos[..n] :: SeriesOf(info)) + {SeriesOf(infos[n])};
    }
  }

  /** There are never more series than records, and exactly as many when no two records share
      a tuple. */
  lemma {:induction false} PublishedCount(infos: seq<PR>)
    ensures |Published(infos)| <= |infos|
    ensures (forall i, j :: 0 <= i < j < |infos| ==> SeriesOf(infos[i]) != SeriesOf(infos[j]))
            ==> |Published(infos)| == |infos|
    decreases |infos|
  {
    if infos != [] {
      var n := |infos| - 1;
      PublishedCount(infos[..n]);
      PublishedSeries(infos[..n]);
      if forall i, j :: 0 <= i < j < |infos| ==> SeriesOf(infos[i]) != SeriesOf(infos[j]) {
        assert SeriesOf(infos[n]) !in Published(infos[..n]);
      }
    }
  }

  /** One poll cycle up to publication: the records to publish, or how the cycle fails. */
  function Cycle(token: string, repositories: string, list: ListPullRequests): (r: Result<seq<PR>, Fault>) {
    match ReadGithubConfig(token)
    case Err(e) => Err(Returned(ReadConfigContext, e))
    case Ok(githubToken) =>
      match GetRepositories(repositories)
      case Err(e) => Err(Returned(RepositoriesContext, e))
      case Ok(repos) =>
        match FetchAll(githubToken, ParseRepositories(repos), list)
        case Err(e) => Err(if e.IndexOutOfRange? then Panicked(e) else Returned(PullRequestsContext, e))
        case Ok(prs) =>
          match Normalize(prs)
          case Err(e) => Err(Panicked(e))
          case Ok(infos) => Ok(infos)
  }

  /** A missing token or repository list fails the cycle before any listing is requested:
      the outcome is the same whatever the remote side would answer. */
  lemma ConfigErrorsPrecedeFetch(token: string, repositories: string, list: ListPullRequests, other: ListPullRequests)
    requires token == "" || repositories == ""
    ensures Cycle(token, repositories, list) == Cycle(token, repositories, other)
    ensures token == "" ==>
      Cycle(token, repositories, list) == Err(Returned(ReadConfigContext, MissingEnvironmentVariable(TokenVariable)))
    ensures token != "" ==>
      Cycle(token, repositories, list) == Err(Returned(RepositoriesContext, MissingEnvironmentVariable(RepositoriesVariable)))
  {
  }

  /** A successful cycle publishes one record per fetched pull request, in fetch order, and
      nothing else. */
  lemma CycleRecordsFetched(token: string, repositories: string, list: ListPullRequests)
    requires Cycle(token, repositories, list).Ok?
    ensures token != "" && repositories != ""
    ensures FetchAll(token, ParseRepositories(repositories), list).Ok?
    ensures var fetched := FetchAll(token, ParseRepositories(repositories), list).value;
            var infos := Cycle(token, repositories, list).value;
            && |infos| == |fetched|
            && (forall i :: 0 <= i < |infos| ==>
                  infos[i].number == fetched[i].number && infos[i].user == fetched[i].user.login)
            && Published(infos).Keys == set info | info in infos :: SeriesOf(info)
  {
    var fetched := FetchAll(token, ParseRepositories(repositories), list).value;
    NormalizeOutcome(fetched);
    PublishedSeries(Cycle(token, repositories, list).value);
  }

  /** The label and reviewer fields of a record labelled "bug" and "urgent" and waiting on
      "alice" and "bob". */
  lemma SeriesOfExample(info: PR)
    requires info.labels == [Label("bug"), Label("urgent")]
    requires info.requestedReviewers == [User("alice"), User("bob")]
    ensures SeriesOf(info).labels == "bug,urgent"
    ensures SeriesOf(info).reviewer == "alice,bob"
  {
    assert LabelNames(info.labels) == ["bug"] + ["urgent"];
    JoinCons("bug", ["urgent"], ',');
    assert ReviewerLogins(info.requestedReviewers) == ["alice"] + ["bob"];
    JoinCons("alice", ["bob"], ',');
  }

  /** `snapshot`: resets the family, reads the configuration, fetches and normalises the pull
      requests, and sets one gauge to 1 per record. Because the reset comes first, a failed
      cycle leaves no series at all, and a successful one leaves exactly the current ones. */
  method Snapshot(registry: Registry, token: string, repositories: string, list: ListPullRequests)
    returns (fault: Option<Fault>)
    modifies registry
    ensures Cycle(token, repositories, list).Err? ==>
      fault == Some(Cycle(token, repositories, list).error) && registry.series == map[]
    ensures Cycle(token, repositories, list).Ok? ==>
      fault == None && registry.series == Published(Cycle(token, repositories, list).value)
  {
    registry.Reset();

    var githubToken := ReadGithubConfig(token);
    if githubToken.Err? {
      return Some(Returned(ReadConfigContext, githubToken.error));
    }

    var repos := GetRepositories(repositories);
    if repos.Err? {
      return Some(Returned(RepositoriesContext, repos.error));
    }

    var repositoryList := ParseRepositories(repos.value);

    var prs := GetPullRequests(githubToken.value, repositoryList, list);
    if prs.Err? {
      if prs.error.IndexOutOfRange? {
        return Some(Panicked(prs.error));
      }
      return Some(Returned(PullRequestsContext, prs.error));
    }

    var prInfos := GetPRInfos(prs.value);
    if prInfos.Err? {
      return Some(Panicked(prInfos.error));
    }

    var infos := prInfos.value;
    for i := 0 to |infos|
      invariant registry.series == Published(infos[..i])
    {
      var labels := SeriesLabels(infos[i]);
      assert infos[..i + 1][..i] == infos[..i];
      registry.Set(labels, 1);
    }
    assert infos[..|infos|] == infos;
    return None;
  }
}
