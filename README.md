# GitHub activity dashboard: metrics aggregation and selection state, in Dafny

This project models the part of the GitHub activity dashboard that computes
things, and proves properties of that model.

- **The backend metrics passes** (`backend/server.js`).
  - `/metrics/:owner/:repo` picks a window start from the `range` query parameter.
  - It walks the closed pull requests once and keeps those merged at or after the start.
  - It counts the kept pull requests per bucket key `"<year>-W<ceil(day/7)>"`, in a dictionary whose keys come out in first-seen order.
  - It sums their merge durations and reports the mean, or the number 0 when nothing was kept.
  - It adds a single branch-activity entry.
  - `/developer-metrics/:owner/:repo/:developer` does the same over the pull requests whose author login equals the developer, bucketed by `merged_at || closed_at`.
  - The `/branches` and `/pulls` endpoints reshape the API records.
- **The frontend selection bookkeeping** (`frontend/src/MainApp.js`).
  - `handleToggleRepo` removes a repository name from the selection with `filter`, or appends it with `push`.
  - The `setRepoData` updater stores the fetched branches and pull requests under that one name. A missing list defaults to `[]`.

Modules, one file each:

- `Wrappers` holds `Option`, for JSON fields that may be null.
- `Decimal` renders the integers a bucket key is built from, a year and a week ordinal from 1 to 5, as `${n}` renders them. It proves that reading a rendering back gives the number, so the rendering is injective.
- `Records` holds the date record `Stamp`, the API records and their projections.
- `Weeks` holds the bucket key.
- `Seqs` holds `NoDuplicates` and `FirstIndex`.
- `Metrics` holds the specification functions and the handlers.
  - `Tally` is the imperative `forEach` loop. It keeps a dictionary, a total and a count.
  - `Tally` is proved against the specification functions `Qualifying`, `Keys`, `FirstSeen`, `Counted` and `TotalMillis`.
  - `RepoMetrics` and `DeveloperMetrics` are the two handlers once the fetches have answered.
- `MetricsProperties` holds the properties of the specification.
- `MainApp` holds a class with two of the component's four state variables, `selectedRepos` and `repoData`, the toggle and the merge, and their properties. `token` and `repos` are not modelled.

Modelling decisions:

- **Times.** An instant is `Stamp(millis, year, day)`.
  - `millis` is what `>=` and `-` on `Date` objects compare and subtract.
  - `year` and `day` are what `getFullYear()` and `getDate()` return. They are given fields, not computed from `millis`.
- **Window start.** The handlers take the window start as a function `monthsBefore` from a number of months to an instant. That function's argument is what the model decides: 6 or 3.
- **Bucket key.** The key is kept as the JavaScript string.
  - `Weeks.SameBucket` proves that two instants share a key exactly when they share the year and the week-of-month ordinal.
- **Average.** The total merge time is summed in exact milliseconds.
  - The model reports either `Zero`, the number 0, or `Fixed(negative, h)`, which is what `toFixed(2)` prints: a minus sign when `negative`, then `h` hundredths of a day.
  - `negative` holds exactly when the total is below zero. `toFixed` writes the sign of every negative number, so a mean just below zero prints "-0.00".
  - `h` is the nearest integer to `100 * |total| / (count * 86400000)`, with halves rounded up.
- **Developer pass with both dates null.** When both `merged_at` and `closed_at` are null, `new Date(null)` is instant 0.
  - Its year and day come from the server's local calendar: 1 January 1970 at or east of UTC, 31 December 1969 west of it.
  - So the developer scope `Developer(login, nullDate)` carries that reading as a `NullDate`, a `Stamp` whose `millis` is 0. `Metrics.DeveloperMetrics` takes it as a parameter.

The developer endpoint's handler (`backend/server.js:220-226`) sends only `individual_pr_trends` and `avg_merge_time`. The branch-activity entry belongs to the repository-wide endpoint alone, so `Metrics.DeveloperMetrics` reports none.

## Model

| member | source | states |
|---|---|---|
| Metrics.WindowMonths | backend/server.js:118-122 | the window reaches back 6 months exactly when `range` is the string "6months"; any other value, a missing one included, gives 3 |
| Metrics.Tally | backend/server.js:129-145 | returns the dictionary's keys in first-seen order of the contributing pull requests' bucket keys; a key is in the counts exactly when it is listed; each count is how often its key occurs; the total is the summed merge time and the count is the number of contributing pull requests |
| Metrics.TallyPrefixMeaning | backend/server.js:133-145 | after the callback has run on the first n pull requests, the loop state is the dictionary, total and count determined by the contributing pull requests among those n |
| Metrics.VisitHit | backend/server.js:136-142 | one qualifying pull request appends itself: its bucket is counted (listed when new) and its merge time and one are added |
| Metrics.CountKeys | backend/server.js:138 | `trends[week] = (trends[week] or 0) + 1` keeps the dictionary equal to the first-seen list and the occurrence counts of the keys seen so far |
| Metrics.TallyDone | backend/server.js:129-145 | the final loop state lists each key once in first-seen order and counts each key's occurrences, the summed merge time and the number of contributing pull requests |
| Metrics.FirstSeenDistinct | backend/server.js:138 | the dictionary's key list has no duplicates and holds exactly the keys seen |
| Metrics.CountedCounts | backend/server.js:138 | the dictionary built by `(trends[week] or 0) + 1` holds exactly the keys seen, each mapped to how often it was seen |
| Metrics.DictionaryStep | backend/server.js:138 | one more key leaves the key list unchanged if the key is already present and appends it otherwise; its count goes up by one from 0 or from its previous value |
| Metrics.QualifyingStep | backend/server.js:133-136 | one more pull request extends the contributing list by itself exactly when it qualifies |
| Metrics.StepPrefix | backend/server.js:133-142 | one more pull request extends the contributing list, the keys and the total by its own contribution when it qualifies, and leaves them unchanged otherwise |
| Metrics.SeriesIsTabulate | backend/server.js:161 | `Object.keys(trends).map(week => ({ week, pr_count }))` equals the tabulation of the listed keys by how often each was seen |
| Metrics.AverageMergeTime | backend/server.js:147 | the number 0 exactly when the count is 0; otherwise a sign, negative exactly when the total is, and the mean's magnitude in hundredths of a day, within half a hundredth of the exact value, with halves rounded up |
| Metrics.RoundUp | backend/server.js:147 | the integer nearest n / d for a non-negative n, with halves rounded up, as `toFixed` rounds a magnitude |
| Metrics.RepoMetrics | backend/server.js:116-164 | `pr_trends` is the first-seen tabulation of the repository-wide keys; `avg_merge_time` is the average over the contributing pull requests; `branch_activity` is one entry dated at the window start, with `branches_created` the number of listed branches and `branches_deleted` 0 |
| Metrics.DeveloperMetrics | backend/server.js:186-226 | `individual_pr_trends` and `avg_merge_time` are computed as for the repository, over the developer's pull requests, bucketed by `merged_at`, else `closed_at`, else the given local reading of `new Date(null)` |
| Metrics.WindowStart | backend/server.js:116-122 | the window start is the instant six months back when `range` is "6months" and three months back otherwise |
| Metrics.RepositoryInstant | backend/server.js:134-135 | the repository pass looks at a pull request only when `merged_at` is present, and dates it by `merged_at` |
| Metrics.DeveloperInstant | backend/server.js:204-205 | the developer pass looks at a pull request exactly when its author is present with that login, and dates it by `merged_at`, else `closed_at`, else `new Date(null)` |
| Metrics.VisitCases | backend/server.js:133-145 | one callback counts a qualifying pull request under its bucket key with its merge time, and leaves the state unchanged otherwise |
| Metrics.CountEffect | backend/server.js:138-142 | counting a key lists it last when it is new, raises its count by one from its previous value or from 0, keeps every other count, and adds the merge time and one to the total and the count |
| Metrics.Series | backend/server.js:161 | one entry per listed key, in the listed order, carrying that key and its count |
| MetricsProperties.UnmergedIsIgnored | backend/server.js:134 | in the repository-wide pass, a pull request without `merged_at`, anywhere in the input, changes neither the contributing list (so neither the buckets, the total nor the count) nor the series |
| MetricsProperties.QualifyingAppend | backend/server.js:133-145 | the pass handles the pull requests one by one: the contributing list of a concatenation is the concatenation of the contributing lists |
| MetricsProperties.QualifyingIsFilter | backend/server.js:133-136 | the contributing list keeps every copy of every qualifying pull request and nothing else |
| MetricsProperties.RepositoryWindow | backend/server.js:134-136 | a pull request contributes to the repository pass exactly when it is merged at or after the start; there is no upper bound |
| MetricsProperties.UndatedPullRequest | backend/server.js:204-207 | a developer's pull request with neither `merged_at` nor `closed_at` is dated instant 0: it contributes exactly when the window starts at or before it, in the bucket of the server's local reading of that instant, and its merge time is minus its creation instant |
| MetricsProperties.NegativeZero | backend/server.js:147 | a mean less than half a hundredth of a day below zero is reported as a negative zero, "-0.00", which differs from the "0.00" of a zero mean |
| MetricsProperties.DeveloperWindow | backend/server.js:204-207 | a pull request contributes to the developer pass exactly when its author is present with exactly that login and `merged_at`, else `closed_at`, is at or after the start; a closed, unmerged one then counts for the developer although the repository pass skips it |
| MetricsProperties.KeysOfQualifying | backend/server.js:137-138 | the keys list one bucket key per contributing pull request, in the same order |
| MetricsProperties.BucketOfQualifying | backend/server.js:137 | a contributing pull request's bucket is the week key of its qualifying instant |
| MetricsProperties.FirstSeenOrder | backend/server.js:161 | the output keys come in the order of their first occurrences among the keys |
| MetricsProperties.TrendsShape | backend/server.js:138-161 | the series lists each bucket of a contributing pull request once and only those; it has no duplicates; each entry's `pr_count` is the number of contributing pull requests in that bucket, at least one |
| MetricsProperties.TrendsFirstSeenOrder | backend/server.js:161 | the series' weeks are keys of contributing pull requests, listed by the position of their first occurrence |
| MetricsProperties.TabulateTotal | backend/server.js:138-142 | the counts of the first-seen tabulation add up to the number of keys |
| MetricsProperties.TrendsTotal | backend/server.js:138-142 | the `pr_count` values of the series add up to `mergedPRCount` |
| MetricsProperties.EmptyWindow | backend/server.js:147-161 | the series is empty, and the average is the number 0, exactly when no pull request contributes |
| MetricsProperties.DeveloperWithinRepository | backend/server.js:203-216 | when every pull request by the developer is merged, whatever other authors' pull requests are, each bucket of a developer's keys holds no more than the same bucket of the repository-wide keys |
| MetricsProperties.MergedByAgree | backend/server.js:204-212 | on a merged pull request by the developer, both passes agree on whether it contributes, its bucket and its merge time |
| MetricsProperties.SoleAuthor | backend/server.js:203-216 | when the developer authored every pull request and all were merged, the developer pass equals the repository pass: the contributing list, the series and the total |
| MetricsProperties.MayScenario | backend/server.js:133-147 | one pull request opened on 28 April 2024 and merged four days later on 2 May 2024 gives the series `[{ week: "2024-W1", pr_count: 1 }]` and the average "4.00" |
| MetricsProperties.NothingInWindow | backend/server.js:133-147 | an unmerged pull request and one merged before the start give an empty series and the average 0 |
| Weeks.WeekOfMonth | backend/server.js:137 | `Math.ceil(day / 7)`: the week ordinal w satisfies 7(w-1) < day <= 7w and lies in 1..5 |
| Weeks.WeekKeyShape | backend/server.js:137 | a key is the year's rendering, "-W" and one digit from 1 to 5; reading it back gives the year and the week-of-month ordinal |
| Weeks.NullDateKeys | backend/server.js:205-208 | instant zero has key "1970-W1" on a server at or east of UTC and "1969-W5" west of it |
| Weeks.SameBucket | backend/server.js:137 | two instants share a bucket key exactly when they share the year and the week-of-month ordinal, whatever their months |
| Weeks.LabelInjective | backend/server.js:137 | the key `${year}-W${week}` determines both its year and its week |
| Weeks.SecondOfMayIsWeekOne | backend/server.js:137 | an instant on 2 May 2024 has key "2024-W1" |
| Decimal.NatToString | backend/server.js:137 | the template-literal rendering of a natural number is a non-empty string of digits, one digit long exactly when the number is below 10 |
| Decimal.IntToString | backend/server.js:137 | the rendering of an integer is an optional leading '-' followed by at least one digit; it starts with '-' exactly when the number is negative |
| Decimal.NatToStringValue | backend/server.js:137 | the digits of the rendering of a natural number denote that number |
| Decimal.NatToStringNoLeadingZero | backend/server.js:137 | the rendering of a positive number has no leading zero |
| Decimal.IntToStringValue | backend/server.js:137 | reading the rendering of an integer back, sign included, gives that integer |
| Decimal.NatToStringInjective | backend/server.js:137 | distinct natural numbers render differently |
| Decimal.IntToStringInjective | backend/server.js:137 | distinct integers render differently |
| Records.ProjectBranch | backend/server.js:71-73 | a projected branch carries the branch's name, its head commit's sha and its head commit's url |
| Records.ProjectBranches | backend/server.js:70-74 | one projected branch per listed branch, in order, carrying its name, commit sha and commit url |
| Records.ProjectBranchKeeps | backend/server.js:70-74 | two branches project alike exactly when they have the same name and head commit |
| Records.ProjectPullRequests | backend/server.js:93-101 | one projected pull request per listed one, in order, with id, title, state, dates and url copied, and the author's login as `user`, or "Unknown" when the author is absent |
| Records.AuthorOf | backend/server.js:99 | the author is the user's login when a user is present and "Unknown" otherwise |
| Records.ProjectPullRequest | backend/server.js:94-100 | a projected pull request copies id, title, state, creation and merge dates, and `html_url` as `url`, with the author as `user` |
| Records.UnknownAuthorIsAmbiguous | backend/server.js:99 | the projected author reads "Unknown" exactly when the author is absent or really has that login |
| Records.ProjectPullRequestKeeps | backend/server.js:93-101 | for pull requests with authors, projections agree exactly when the records agree on everything but the closing time |
| MainApp.Without | frontend/src/MainApp.js:43 | the filter removes the name and keeps the membership of every other name; it never lengthens the selection |
| MainApp.Toggled | frontend/src/MainApp.js:40-46 | after a toggle the name is selected exactly when it was not before, every other name keeps its membership, and an absent name is appended at the end |
| MainApp.MergeRepoData | frontend/src/MainApp.js:58-64 | the keys afterwards are the previous keys plus the name; the name maps to the fetched lists, a missing list stored as `[]`; every other key keeps its previous value |
| MainApp.MainApp.constructor | frontend/src/MainApp.js:8-9 | the selection starts empty and so does the `repoData` map |
| MainApp.MainApp.ToggleRepo | frontend/src/MainApp.js:39-47 | the new selection is the old one with the name filtered out if it was there and pushed at the end otherwise; `repoData` is unchanged |
| MainApp.MainApp.StoreRepoData | frontend/src/MainApp.js:58-64 | `repoData` becomes the one-key merge of its previous value; the selection is unchanged |
| MainApp.ToggleFlips | frontend/src/MainApp.js:42-45 | after a toggle the name is selected exactly when it was not selected before |
| MainApp.ToggleKeepsOthers | frontend/src/MainApp.js:40-47 | a toggle leaves the membership of every other name unchanged |
| MainApp.WithoutCounts | frontend/src/MainApp.js:43 | removal drops every occurrence of the name and keeps every occurrence of every other name |
| MainApp.WithoutAppend | frontend/src/MainApp.js:43 | removal works element by element, so it keeps the relative order of the other names |
| MainApp.WithoutAbsent | frontend/src/MainApp.js:43 | removing a name that is not there changes nothing |
| MainApp.ToggleAppends | frontend/src/MainApp.js:40-45 | adding appends the name at the end and leaves the earlier elements unchanged |
| MainApp.WithoutNoDuplicates | frontend/src/MainApp.js:43 | removal keeps a selection free of duplicates |
| MainApp.ToggleNoDuplicates | frontend/src/MainApp.js:40-47 | if the selection had no duplicates before a toggle, it has none after |
| MainApp.ToggleTwice | frontend/src/MainApp.js:39-47 | toggling twice restores a selection that lacked the name; when the selection held the name, every copy of it is replaced by one copy at the end |

## Left out

- OAuth, passport, the session and the login and logout redirects (`backend/server.js:12-44`). They are plumbing over external libraries.
- The HTTP calls to the GitHub API, Express routing and response writing. The fetched arrays are inputs of the handlers, and the reports are their outputs.
- The rate-limit error middleware (`backend/server.js:172-178`). Every handler catches its own errors, so none of them reaches it.
- The `catch` branches that answer 500. A failed fetch is not modelled.
- Floating point. The model sums merge times in exact milliseconds and rounds the mean once at the end. It does not reproduce the binary rounding of the per-pull-request division by `1000 * 60 * 60 * 24`, nor the rounding of `toFixed(2)` on a binary value.
- Metrics.AverageMergeTime: it returns a sign and a whole number of hundredths, not the string `toFixed(2)` prints. `Fixed(negative, h)` stands for a minus sign when `negative`, then the decimal rendering of h / 100 with two decimals.
- The calendar arithmetic of `setMonth` and the local timezone. The window start, the year and day of each instant, and the local reading of `new Date(null)` are given values.
- The `date` field `toISOString().split('T')[0]`. The branch-activity entry carries the window start as a `Stamp`.
- Dates that cannot be parsed (`Invalid Date`, whose comparisons are false). No `Stamp` stands for one. This includes a `closed_at` key missing from the record, for which `new Date(undefined)` is an `Invalid Date`; the model takes both keys as always sent, `None` standing for `null`.
- JavaScript truthiness of an empty string in `merged_at` or `closed_at`. An absent date is `None`; every present date is a real instant.
- `frontend/src/Dashboard.js` (`fetchMetrics` and the charts), `frontend/src/App.js` and `frontend/src/index.js`. They are concurrent fetching, rendering and bootstrap.
- In `handleToggleRepo`, the `if (!token) return` guard and the two fetches. `MainApp.StoreRepoData` is the updater that runs when both have answered.
- The order in which the asynchronous answers arrive, and React's batching of state updates. Each method applies one update to the current state.
- Object key order when a week key looks like an array index. Keys of the shape `"<year>-W<n>"` never do, so `Object.keys` returns them in insertion order.
