/**
 * Reading the exporter's configuration. The process environment is not modelled:
 * each variable's value (empty when unset, as `os.Getenv` gives it) is a parameter.
 */
module Config {
  import opened Results
  import opened Errors
  import Strings

  const TokenVariable: string := "GITHUB_TOKEN"
  const RepositoriesVariable: string := "GITHUB_REPOSITORIES"

  /** `readGithubConfig`: the access token, which must not be empty. */
  function ReadGithubConfig(token: string): (r: Result<string, Error>)
    ensures r.Err? <==> token == ""
    ensures r.Ok? ==> r.value == token
    ensures r.Err? ==> r.error == MissingEnvironmentVariable(TokenVariable)
  {
    if |token| == 0 then Err(MissingEnvironmentVariable(TokenVariable)) else Ok(token)
  }

  /** `getRepositories`: the comma-separated repository list, which must not be empty. */
  function GetRepositories(repositories: string): (r: Result<string, Error>)
    ensures r.Err? <==> repositories == ""
    ensures r.Ok? ==> r.value == repositories
    ensures r.Err? ==> r.error == MissingEnvironmentVariable(RepositoriesVariable)
  {
    if |repositories| == 0 then Err(MissingEnvironmentVariable(RepositoriesVariable)) else Ok(repositories)
  }

  /** `parseRepositories`: the entries between commas. None of them holds a comma, there is one
      more entry than there are commas, and putting the commas back gives the input. */
  function ParseRepositories(repositories: string): (entries: seq<string>)
    ensures |entries| == multiset(repositories)[','] + 1
    ensures forall i :: 0 <= i < |entries| ==> ',' !in entries[i]
    ensures Strings.Join(entries, ',') == repositories
  {
    Strings.JoinSplit(repositories, ',');
    Strings.Split(repositories, ',')
  }
}
