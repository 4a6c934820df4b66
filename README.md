# github-pr-prometheus-exporter, modelled in Dafny

The exporter polls GitHub for the open pull requests of a configured list of repositories and
publishes one Prometheus gauge series per pull request, labelled with its number, its label
names, its author, its requested reviewers and its repository. Every cycle (`snapshot`) resets
the gauge family, reads the `GITHUB_TOKEN` and `GITHUB_REPOSITORIES` variables, splits the
repository list on commas, lists each `owner/name` repository's pull requests, rebuilds each
pull request's repository name from its API URL, and sets the gauge of each label tuple to 1.

This project models that core:

- `results.dfy`, `errors.dfy`: `Result`/`Option` values; the exporter's errors (a missing
  variable, a failed listing, and the runtime panic "index out of range") and how a cycle ends
  (`Returned` with the message prefix `snapshot` adds, or `Panicked`).
- `strings.dfy`: Go's `strings.Split` and `strings.Join` with a one-character separator and
  `strconv.Itoa`, with their round trips (a decimal parser serves as `Itoa`'s inverse).
- `config.dfy`: `readGithubConfig`, `getRepositories`, `parseRepositories`. Environment values
  are parameters (the empty string stands for an unset variable, as `os.Getenv` reports it).
- `pullrequests.dfy`: `getPullRequests` as a loop that splits each entry on `/`, calls the
  remote listing (an oracle parameter) and appends, proved against the recursive `FetchAll`;
  `getPRInfos` as a loop proved against `Normalize`, with the repository taken from URL
  segments 4 and 5.
- `metrics.dfy`: the gauge family as a `Registry` class with a `map<LabelTuple, int>` field and
  `Reset`/`Set` methods, the per-record label tuple (`SeriesLabels`, with its two accumulator
  loops) and `Snapshot`, proved against the specification functions `Cycle` and `Published`.

A Go panic (indexing past the end of a slice) is modelled as an `IndexOutOfRange(index, length)`
error carrying the index and length the runtime would report.

## Model

| member | source | states |
|---|---|---|
| `Strings.Split` | main.go:154-156 | `strings.Split` on one separator gives one more piece than there are separators, and no piece contains the separator |
| `Strings.Join` | main.go:99-101 | `strings.Join`: the first piece is a prefix of the result, the length is the pieces' total length plus one separator between each neighbouring pair, and no pieces give ""; `JoinSplit` and `SplitJoin` pin down the rest |
| `Strings.JoinSplit` | main.go:154-156 | joining the pieces of a split with the separator gives back the original string |
| `Strings.SplitJoin` | main.go:97-101 | splitting the join of one or more separator-free pieces gives back exactly those pieces |
| `Strings.Itoa` | main.go:98 | the decimal text is non-empty and starts with '-' exactly for negative numbers |
| `Strings.ItoaRoundTrip` | main.go:98 | the text of `strconv.Itoa` parses back to the same number |
| `Strings.ItoaInjective` | main.go:98 | different numbers never get the same text |
| `Config.ReadGithubConfig` | main.go:110-117 | fails with the missing `GITHUB_TOKEN` error exactly when the value is empty, otherwise returns it unchanged |
| `Config.GetRepositories` | main.go:145-152 | fails with the missing `GITHUB_REPOSITORIES` error exactly when the value is empty, otherwise returns it unchanged |
| `Config.ParseRepositories` | main.go:154-156 | the entries hold no comma, number one more than the commas, and joined with "," give back the input |
| `PullRequests.SplitRepository` | main.go:131-133 | the owner/name split succeeds exactly when the entry has a '/'; it returns the first two pieces, so the entry is owner + "/" + name followed by nothing or by the rest from the next '/' (`"a/b/c"` gives `("a", "b")`); the parts hold no '/'; an entry without '/' panics indexing element 1 of a 1-element slice |
| `PullRequests.SplitRepositoryOfPair` | main.go:131-133 | "owner/name" of separator-free parts splits back into that owner and name |
| `PullRequests.GetPullRequests` | main.go:128-142 | the loop returns exactly `FetchAll`: per-repository lists concatenated in entry order, or the first failure with no partial list |
| `PullRequests.FetchAllAppend` | main.go:128-142 | fetching `a + b` is fetching `a` then `b` with the lists concatenated in that order; a failure in `a` is the result and `b` is not consulted |
| `PullRequests.FetchAllOutcome` | main.go:130-140 | the fetch succeeds exactly when every entry splits and lists successfully; otherwise its error is that of the first failing entry |
| `PullRequests.EntryWithoutSlashPanics` | main.go:131-133 | an entry without '/' reached after successful entries makes the fetch panic with index 1, length 1 |
| `PullRequests.RepoOfURL` | main.go:162-169 | the repository is found exactly when the URL has at least five '/' (six segments); otherwise it panics at index 4, or at index 5 when there are exactly five segments, with the segment count as length |
| `PullRequests.RepoOfURLOfSegments` | main.go:162-169 | a URL built from separator-free segments yields segment 4 + "/" + segment 5 (so `https://api.github.com/repos/acme/widgets/pulls/42` gives "acme/widgets") |
| `PullRequests.RepoOfURLIsRepositoryEntry` | main.go:169 | the rebuilt repository name splits back into URL segments 4 and 5 as owner and name |
| `PullRequests.GetPRInfos` | main.go:158-174 | the loop returns exactly `Normalize` of the pull requests |
| `PullRequests.NormalizeOutcome` | main.go:158-174 | normalising succeeds exactly when every URL has six segments; it then gives one record per pull request in the same order with number, labels, author login and reviewers copied and the repository from the URL |
| `PullRequests.NormalizeFirstFailure` | main.go:161-169 | a failed normalisation carries the panic of the first pull request whose URL has fewer than six segments, all earlier ones being well-formed |
| `Metrics.Registry.constructor` | main.go:29-36 | a new gauge family has no series |
| `Metrics.Registry.Reset` | main.go:61 | after a reset the family has no series |
| `Metrics.Registry.Set` | main.go:104 | setting a tuple's gauge updates that one series and leaves every other series as it was |
| `Metrics.SeriesLabels` | main.go:85-103 | the accumulator loops build exactly `SeriesOf`: decimal number, label names joined with ",", author, reviewer logins joined with ",", repository |
| `Metrics.SeriesOfDecodes` | main.go:97-103 | the number field parses back to the number; the label and reviewer fields split back into the names and logins (when non-empty and comma-free) and are empty when there are none |
| `Metrics.SeriesOfSeparates` | main.go:97-103 | two records sharing a series have the same number, author and repository |
| `Metrics.SeriesOfExample` | main.go:89-101 | labels "bug", "urgent" give "bug,urgent" and reviewers "alice", "bob" give "alice,bob" |
| `Metrics.PublishedSeries` | main.go:85-105 | after publishing, the series are exactly the tuples of the current records and every value is 1; no tuple of an earlier cycle survives |
| `Metrics.PublishedCount` | main.go:97-104 | duplicate tuples collapse: never more series than records, exactly as many when the tuples are distinct |
| `Metrics.ConfigErrorsPrecedeFetch` | main.go:61-71 | a missing token or repository list fails the cycle with that variable's error before any listing, whatever the remote side would answer |
| `Metrics.CycleRecordsFetched` | main.go:73-80 | a successful cycle had both variables set, fetched successfully and publishes one record per fetched pull request in fetch order |
| `Metrics.Snapshot` | main.go:60-108 | the registry is reset first; a failed cycle returns its fault and leaves no series; a successful one returns no fault and leaves exactly `Published` of the records |

## Left out

- The HTTP server and its `/metrics` handler, Prometheus registration and the exposition format, the ticker goroutine and `log.Fatal` (I/O and concurrency); the interval is the constant 10 seconds and is not modelled.
- The OAuth2 client and GitHub's `PullRequests.List` call: a `ListPullRequests` oracle (token, owner, name) stands for them and answers with the first page of results or an error message. The code passes no list options and reads only the first page, so pagination is not modelled.
- `os.Getenv`: variable values are parameters; an unset variable is the empty string.
- Nil pointers (`Number`, `URL`, `User`, label names, reviewer logins): these fields are plain values.
- Gauge values are `float64` in Prometheus; the registry holds `int` since only 1 is ever written.
- Prometheus label-value validation (UTF-8 checks) is not modelled.
- A Go panic unwinds and ends the process; the model returns it as `Fault.Panicked` from `Snapshot`, with the registry state at that point (empty, since the reset precedes every panic site).
- `Strings.Split` and `Strings.Join` cover only the one-character separators the exporter uses.
- The `labelsTag`/`reviewersTag` variables are declared once and reassigned per record in the source; the model makes them fresh locals of `SeriesLabels` per record, which is the same behaviour.
- `PullRequests.RepoOfURLOfSegments`: the example URL is covered by this lemma about URLs given by their segments; no lemma states it on the literal URL text.
- The code reads only the first page of results and never follows further pages; the interval is the constant 10 seconds with no override; the first cycle runs at the first tick; a short URL panics rather than returning an error. The model follows the code.
