/**
 * The aggregation of backend/server.js behind `/metrics/:owner/:repo` and
 * `/developer-metrics/:owner/:repo/:developer`: choose a window start, walk
 * the closed pull requests once, count them per week bucket in first-seen
 * order, and average their merge durations.
 */
module Metrics {
  import opened Wrappers
  import opened Seqs
  import opened Records
  import opened Weeks

  // ----------------------------------------------------------- time window

  const SixMonths: string := "6months"

  /** How many calendar months the window reaches back for the `range` query parameter. */
  function WindowMonths(range: Option<string>): (months: nat)
    ensures months == 6 <==> range == Some(SixMonths)
    ensures months == 3 <==> range != Some(SixMonths)
  {
    if range == Some(SixMonths) then 6 else 3
  }

  /**
   * `startDate`; `monthsBefore(n)` is the instant that `setMonth(getMonth() - n)`
   * produces from the current instant.
   */
  function WindowStart(range: Option<string>, monthsBefore: nat -> Stamp): (start: Stamp)
    ensures range == Some(SixMonths) ==> start == monthsBefore(6)
    ensures range != Some(SixMonths) ==> start == monthsBefore(3)
  {
    monthsBefore(WindowMonths(range))
  }

  // ------------------------------------------------- which pull requests count

  /**
   * The repository-wide pass or the pass for one developer's login; the
   * developer pass also carries the server's reading of `new Date(null)`.
   */
  datatype Scope = Repository | Developer(login: string, nullDate: NullDate)

  /**
   * The instant a pull request is bucketed by, if the pass looks at it at all:
   * `merged_at` for the repository; for a developer, `merged_at || closed_at`
   * of the pull requests that developer authored.
   */
  function QualifyingTime(scope: Scope, pr: RawPullRequest): Option<Stamp>
  {
    match scope
    case Repository => pr.mergedAt
    case Developer(login, nullDate) =>
      if pr.user.Some? && pr.user.value.login == login
      then Some(pr.mergedAt.GetOr(pr.closedAt.GetOr(nullDate)))
      else None
  }

  /** The repository pass looks at merged pull requests only, dated by `merged_at`. */
  lemma RepositoryInstant(pr: RawPullRequest)
    ensures QualifyingTime(Repository, pr) == pr.mergedAt
  {
  }

  /**
   * The developer pass looks only at pull requests whose author has exactly
   * that login, and dates them by `merged_at`, else `closed_at`, else
   * `new Date(null)`.
   */
  lemma DeveloperInstant(scope: Scope, pr: RawPullRequest)
    requires scope.Developer?
    ensures QualifyingTime(scope, pr).Some? <==> pr.user == Some(User(scope.login))
    ensures pr.user == Some(User(scope.login)) ==>
      QualifyingTime(scope, pr).value ==
        if pr.mergedAt.Some? then pr.mergedAt.value
        else if pr.closedAt.Some? then pr.closedAt.value
        else scope.nullDate
  {
  }

  /** The window is one-sided: anything at or after its start passes. */
  predicate Qualifies(scope: Scope, pr: RawPullRequest, start: Stamp)
  {
    QualifyingTime(scope, pr).Some? && QualifyingTime(scope, pr).value.millis >= start.millis
  }

  /** The pull requests that contribute, in input order. */
  function Qualifying(scope: Scope, prs: seq<RawPullRequest>, start: Stamp): (q: seq<RawPullRequest>)
    ensures |q| <= |prs|
  {
    if prs == [] then []
    else
      var n := |prs| - 1;
      Qualifying(scope, prs[..n], start) + (if Qualifies(scope, prs[n], start) then [prs[n]] else [])
  }

  /** The bucket key of a pull request the pass looks at. */
  function BucketOf(scope: Scope, pr: RawPullRequest): string
  {
    match QualifyingTime(scope, pr)
    case Some(t) => WeekKey(t)
    case None => ""
  }

  /** `mergedAt - createdAt`, in milliseconds. */
  function MergeMillis(scope: Scope, pr: RawPullRequest): int
  {
    match QualifyingTime(scope, pr)
    case Some(t) => t.millis - pr.createdAt.millis
    case None => 0
  }

  /** One bucket key per pull request, in order. */
  function Buckets(scope: Scope, q: seq<RawPullRequest>): (keys: seq<string>)
    ensures |keys| == |q|
  {
    if q == [] then [] else var n := |q| - 1; Buckets(scope, q[..n]) + [BucketOf(scope, q[n])]
  }

  function TotalMillis(scope: Scope, q: seq<RawPullRequest>): int
  {
    if q == [] then 0 else var n := |q| - 1; TotalMillis(scope, q[..n]) + MergeMillis(scope, q[n])
  }

  /** The bucket keys of the contributing pull requests, one per pull request. */
  function Keys(scope: Scope, prs: seq<RawPullRequest>, start: Stamp): seq<string>
  {
    Buckets(scope, Qualifying(scope, prs, start))
  }

  // ------------------------------------------------------ first-seen order

  /** The distinct elements of `keys`, each where it first occurs. */
  function FirstSeen(keys: seq<string>): seq<string>
  {
    if keys == [] then []
    else
      var n := |keys| - 1;
      var r0 := FirstSeen(keys[..n]);
      if keys[n] in keys[..n] then r0 else r0 + [keys[n]]
  }

  /** Each key seen is listed exactly once. */
  lemma {:induction false} FirstSeenDistinct(keys: seq<string>)
    ensures NoDuplicates(FirstSeen(keys))
    ensures forall k :: k in FirstSeen(keys) <==> k in keys
  {
    if keys != [] {
      var n := |keys| - 1;
      assert keys == keys[..n] + [keys[n]];
      FirstSeenDistinct(keys[..n]);
    }
  }

  // ------------------------------------------------------------- reports

  datatype WeekCount = WeekCount(week: string, prCount: nat)

  /** The trend series: each bucket key once, in first-seen order, with how many keys are it. */
  function Tabulate(weeks: seq<string>, keys: seq<string>): seq<WeekCount>
  {
    seq(|weeks|, i requires 0 <= i < |weeks| => WeekCount(weeks[i], multiset(keys)[weeks[i]]))
  }

  /** What the pass reports as its trend series. */
  function Trends(scope: Scope, prs: seq<RawPullRequest>, start: Stamp): seq<WeekCount>
  {
    var keys := Keys(scope, prs, start);
    Tabulate(FirstSeen(keys), keys)
  }

  /** Milliseconds per day, the divisor at backend/server.js:141. */
  const MillisPerDay: int := 1000 * 60 * 60 * 24

  /**
   * `avg_merge_time`: the number 0 when no pull request contributed, otherwise
   * the mean merge time in days written with two decimals, here as a sign and
   * a whole number of hundredths of a day. `toFixed` writes the sign of every
   * negative mean, so a mean just below zero prints as "-0.00".
   */
  datatype AvgMergeTime = Zero | Fixed(negative: bool, hundredths: nat)

  /** The integer nearest to n / d, halves rounded up (as `toFixed` rounds a magnitude). */
  function RoundUp(n: nat, d: int): (q: nat)
    requires d > 0
    ensures d * (2 * q - 1) <= 2 * n < d * (2 * q + 1)
  {
    var m := 2 * n + d;
    var q := m / (2 * d);
    assert m == (2 * d) * q + m % (2 * d);
    q
  }

  /** `count > 0 ? (total / count).toFixed(2) : 0` over a total in milliseconds. */
  function AverageMergeTime(totalMillis: int, count: nat): (avg: AvgMergeTime)
    ensures avg.Zero? <==> count == 0
    ensures avg.Fixed? ==> (avg.negative <==> totalMillis < 0)
    ensures count > 0 ==>
      var d, magnitude := count * MillisPerDay, if totalMillis < 0 then -totalMillis else totalMillis;
      d * (2 * avg.hundredths - 1) <= 200 * magnitude < d * (2 * avg.hundredths + 1)
  {
    if count == 0 then Zero
    else if totalMillis < 0 then Fixed(true, RoundUp(-100 * totalMillis, count * MillisPerDay))
    else Fixed(false, RoundUp(100 * totalMillis, count * MillisPerDay))
  }

  datatype BranchActivity = BranchActivity(date: Stamp, branchesCreated: nat, branchesDeleted: nat)

  /** The body `/metrics/:owner/:repo` sends. */
  datatype RepoReport = RepoReport(
    prTrends: seq<WeekCount>,
    avgMergeTime: AvgMergeTime,
    branchActivity: seq<BranchActivity>)

  /** The body `/developer-metrics/:owner/:repo/:developer` sends. */
  datatype DeveloperReport = DeveloperReport(
    individualPrTrends: seq<WeekCount>,
    avgMergeTime: AvgMergeTime)

  /** `Object.keys(trends).map(week => ({ week, pr_count: trends[week] }))` */
  function Series(weeks: seq<string>, counts: map<string, nat>): (r: seq<WeekCount>)
    requires forall k :: k in weeks ==> k in counts
    ensures |r| == |weeks|
    ensures forall i :: 0 <= i < |weeks| ==> r[i].week == weeks[i] && r[i].prCount == counts[weeks[i]]
  {
    seq(|weeks|, i requires 0 <= i < |weeks| => WeekCount(weeks[i], counts[weeks[i]]))
  }

  // ------------------------------------------------------------- the passes
  /**
   * The `forEach` over the closed pull requests. The dictionary of counts is
   * `weeks` (its keys in insertion order, which is the order `Object.keys`
   * gives for keys of this shape) together with `counts`.
   */
  method Tally(scope: Scope, prs: seq<RawPullRequest>, start: Stamp)
    returns (weeks: seq<string>, counts: map<string, nat>, totalMergeMillis: int, mergeCount: nat)
    ensures weeks == FirstSeen(Keys(scope, prs, start))
    ensures forall k :: k in counts <==> k in weeks
    ensures forall k :: k in counts ==> counts[k] == multiset(Keys(scope, prs, start))[k]
    ensures totalMergeMillis == TotalMillis(scope, Qualifying(scope, prs, start))
    ensures mergeCount == |Qualifying(scope, prs, start)|
  {
    weeks, counts, totalMergeMillis, mergeCount := [], map[], 0, 0;
    var i := 0;
    while i < |prs|
      invariant i <= |prs|
      invariant Tallied(weeks, counts, totalMergeMillis, mergeCount) == TallyPrefix(scope, prs, start, i)
    {
      var pr := prs[i];
      var t := QualifyingTime(scope, pr);
      if t.Some? && t.value.millis >= start.millis {
        var week := WeekKey(t.value);
        CountFields(weeks, counts, week, t.value.millis - pr.createdAt.millis, totalMergeMillis, mergeCount);
        var seen := if week in counts then counts[week] else 0;
        if week !in counts {
          weeks := weeks + [week];
        }
        counts := counts[week := seen + 1];
        totalMergeMillis := totalMergeMillis + (t.value.millis - pr.createdAt.millis);
        mergeCount := mergeCount + 1;
      }
      i := i + 1;
    }
    TallyDone(scope, prs, start);
  }

  /** The state of `Tally`'s loop: the dictionary, the total and the count. */
  datatype Tallied = Tallied(weeks: seq<string>, counts: map<string, nat>, totalMergeMillis: int, mergeCount: nat)

  /** One call of the `forEach` callback. */
  function Visit(scope: Scope, start: Stamp, acc: Tallied, pr: RawPullRequest): Tallied
  {
    var t := QualifyingTime(scope, pr);
    if t.Some? && t.value.millis >= start.millis
    then Count(acc, WeekKey(t.value), t.value.millis - pr.createdAt.millis)
    else acc
  }

  /** `trends[week] = (trends[week] || 0) + 1`, and the merge time added to the total. */
  function Count(acc: Tallied, week: string, millis: int): Tallied
  {
    var seen := if week in acc.counts then acc.counts[week] else 0;
    Tallied(if week in acc.counts then acc.weeks else acc.weeks + [week],
            acc.counts[week := seen + 1],
            acc.totalMergeMillis + millis,
            acc.mergeCount + 1)
  }

  /**
   * The callback counts a pull request that qualifies, under its bucket key and
   * with its merge time, and leaves the state alone otherwise.
   */
  lemma VisitCases(scope: Scope, start: Stamp, acc: Tallied, pr: RawPullRequest)
    ensures Qualifies(scope, pr, start) ==>
      Visit(scope, start, acc, pr) == Count(acc, BucketOf(scope, pr), MergeMillis(scope, pr))
    ensures !Qualifies(scope, pr, start) ==> Visit(scope, start, acc, pr) == acc
  {
  }

  /**
   * Counting a key lists it after the others when it is new, raises its count
   * by one from its previous value or from 0, keeps every other count, and adds
   * the merge time and one to the total and the count.
   */
  lemma CountEffect(acc: Tallied, week: string, millis: int)
    ensures var r := Count(acc, week, millis);
      && r.weeks == (if week in acc.counts then acc.weeks else acc.weeks + [week])
      && r.counts.Keys == acc.counts.Keys + {week}
      && r.counts[week] == (if week in acc.counts then acc.counts[week] + 1 else 1)
      && (forall k :: k in acc.counts && k != week ==> r.counts[k] == acc.counts[k])
      && r.totalMergeMillis == acc.totalMergeMillis + millis
      && r.mergeCount == acc.mergeCount + 1
  {
  }

  /** The loop's state after the first `n` pull requests. */
  function TallyPrefix(scope: Scope, prs: seq<RawPullRequest>, start: Stamp, n: nat): Tallied
    requires n <= |prs|
  {
    if n == 0 then Tallied([], map[], 0, 0)
    else Visit(scope, start, TallyPrefix(scope, prs, start, n - 1), prs[n - 1])
  }

  /** The state a list of qualifying pull requests determines. */
  function Summary(scope: Scope, q: seq<RawPullRequest>): Tallied
  {
    var keys := Buckets(scope, q);
    Tallied(FirstSeen(keys), Counted(keys), TotalMillis(scope, q), |q|)
  }

  /** After `n` callbacks the state is the one the qualifying pull requests among the first `n` determine. */
  lemma {:induction false} TallyPrefixMeaning(scope: Scope, prs: seq<RawPullRequest>, start: Stamp, n: nat)
    requires n <= |prs|
    ensures TallyPrefix(scope, prs, start, n) == Summary(scope, Qualifying(scope, prs[..n], start))
  {
    if n > 0 {
      var i, pr := n - 1, prs[n - 1];
      var q := Qualifying(scope, prs[..i], start);
      TallyPrefixMeaning(scope, prs, start, i);
      QualifyingStep(scope, prs, i, start);
      var t := QualifyingTime(scope, pr);
      if t.Some? && t.value.millis >= start.millis {
        assert Qualifying(scope, prs[..n], start) == q + [pr];
        VisitHit(scope, start, q, pr, t.value);
      } else {
        assert Qualifying(scope, prs[..n], start) == q;
      }
    }
  }

  /** A qualifying pull request is appended, its bucket counted (and listed if new) and its merge time added. */
  lemma VisitHit(scope: Scope, start: Stamp, q: seq<RawPullRequest>, pr: RawPullRequest, t: Stamp)
    requires QualifyingTime(scope, pr) == Some(t) && t.millis >= start.millis
    ensures Visit(scope, start, Summary(scope, q), pr) == Summary(scope, q + [pr])
  {
    var keys, week, millis := Buckets(scope, q), WeekKey(t), t.millis - pr.createdAt.millis;
    var acc := Tallied(FirstSeen(keys), Counted(keys), TotalMillis(scope, q), |q|);
    assert Summary(scope, q) == acc;
    assert Visit(scope, start, acc, pr) == Count(acc, week, millis);
    CountKeys(keys, week, millis, TotalMillis(scope, q), |q|);
    assert BucketOf(scope, pr) == week;
    assert MergeMillis(scope, pr) == millis;
    AppendOne(scope, q, pr);
    assert Summary(scope, q + [pr]) == Count(acc, week, millis);
  }

  /** Counting one more key keeps the dictionary the one its keys determine. */
  lemma CountKeys(keys: seq<string>, week: string, millis: int, total: int, count: nat)
    ensures Count(Tallied(FirstSeen(keys), Counted(keys), total, count), week, millis)
         == Tallied(FirstSeen(keys + [week]), Counted(keys + [week]), total + millis, count + 1)
  {
    CountFields(FirstSeen(keys), Counted(keys), week, millis, total, count);
    DictionaryStep(keys, week, FirstSeen(keys), Counted(keys));
  }

  lemma CountFields(weeks: seq<string>, counts: map<string, nat>, week: string, millis: int, total: int, count: nat)
    ensures Count(Tallied(weeks, counts, total, count), week, millis)
         == Tallied(if week in counts then weeks else weeks + [week],
                    counts[week := (if week in counts then counts[week] else 0) + 1],
                    total + millis, count + 1)
  {
  }

  /** Once every pull request is seen, the state is the one `Tally` promises. */
  lemma TallyDone(scope: Scope, prs: seq<RawPullRequest>, start: Stamp)
    ensures var r, keys := TallyPrefix(scope, prs, start, |prs|), Keys(scope, prs, start);
      && r.weeks == FirstSeen(keys)
      && (forall k :: k in r.counts <==> k in r.weeks)
      && (forall k :: k in r.counts ==> r.counts[k] == multiset(keys)[k])
      && r.totalMergeMillis == TotalMillis(scope, Qualifying(scope, prs, start))
      && r.mergeCount == |Qualifying(scope, prs, start)|
  {
    TallyPrefixMeaning(scope, prs, start, |prs|);
    assert prs[..|prs|] == prs;
    CountedCounts(Keys(scope, prs, start));
    FirstSeenDistinct(Keys(scope, prs, start));
  }

  /** Counting one more key in the ordered dictionary. */
  lemma DictionaryStep(keys: seq<string>, week: string, weeks: seq<string>, counts: map<string, nat>)
    requires weeks == FirstSeen(keys) && counts == Counted(keys)
    ensures FirstSeen(keys + [week]) == (if week in counts then weeks else weeks + [week])
    ensures Counted(keys + [week]) == counts[week := (if week in counts then counts[week] else 0) + 1]
  {
    FirstSeenStep(keys, week);
    CountedStep(keys, week);
    assert week in counts <==> week in keys;
  }

  /** The dictionary `(trends[week] || 0) + 1` builds from a list of keys. */
  function Counted(keys: seq<string>): (m: map<string, nat>)
  {
    if keys == [] then map[]
    else
      var n := |keys| - 1;
      var m0 := Counted(keys[..n]);
      m0[keys[n] := (if keys[n] in m0 then m0[keys[n]] else 0) + 1]
  }

  lemma CountedStep(keys: seq<string>, x: string)
    ensures x in Counted(keys) <==> x in keys
    ensures var m := Counted(keys);
      Counted(keys + [x]) == m[x := (if x in m then m[x] else 0) + 1]
  {
    assert (keys + [x])[..|keys|] == keys;
    CountedCounts(keys);
  }

  /** The dictionary holds exactly the keys seen, each with how often it was seen. */
  lemma {:induction false} CountedCounts(keys: seq<string>)
    ensures forall k :: k in Counted(keys) <==> k in keys
    ensures forall k :: k in Counted(keys) ==> Counted(keys)[k] == multiset(keys)[k]
  {
    if keys != [] {
      var n := |keys| - 1;
      assert keys == keys[..n] + [keys[n]];
      CountedCounts(keys[..n]);
    }
  }

  /** One more pull request extends the qualifying list by itself when it qualifies. */
  lemma QualifyingStep(scope: Scope, prs: seq<RawPullRequest>, i: nat, start: Stamp)
    requires i < |prs|
    ensures Qualifying(scope, prs[..i + 1], start) ==
      Qualifying(scope, prs[..i], start) + (if Qualifies(scope, prs[i], start) then [prs[i]] else [])
  {
    assert prs[..i + 1][..i] == prs[..i];
  }

  /** ... and so extends its keys and its total by its own contribution. */
  lemma StepPrefix(scope: Scope, prs: seq<RawPullRequest>, i: nat, start: Stamp)
    requires i < |prs|
    ensures var q, q' := Qualifying(scope, prs[..i], start), Qualifying(scope, prs[..i + 1], start);
      && q' == q + (if Qualifies(scope, prs[i], start) then [prs[i]] else [])
      && Keys(scope, prs[..i + 1], start) ==
           Keys(scope, prs[..i], start) + (if Qualifies(scope, prs[i], start) then [BucketOf(scope, prs[i])] else [])
      && TotalMillis(scope, q') ==
           TotalMillis(scope, q) + (if Qualifies(scope, prs[i], start) then MergeMillis(scope, prs[i]) else 0)
  {
    QualifyingStep(scope, prs, i, start);
    var q := Qualifying(scope, prs[..i], start);
    if Qualifies(scope, prs[i], start) {
      assert Qualifying(scope, prs[..i + 1], start) == q + [prs[i]];
      AppendOne(scope, q, prs[i]);
    } else {
      assert Qualifying(scope, prs[..i + 1], start) == q;
    }
  }

  lemma AppendOne(scope: Scope, q: seq<RawPullRequest>, pr: RawPullRequest)
    ensures Buckets(scope, q + [pr]) == Buckets(scope, q) + [BucketOf(scope, pr)]
    ensures TotalMillis(scope, q + [pr]) == TotalMillis(scope, q) + MergeMillis(scope, pr)
  {
    assert (q + [pr])[..|q|] == q;
  }

  lemma FirstSeenStep(keys: seq<string>, x: string)
    ensures FirstSeen(keys + [x]) == if x in keys then FirstSeen(keys) else FirstSeen(keys) + [x]
  {
    assert (keys + [x])[..|keys|] == keys;
  }

  /** The reported series is the tabulation of the keys. */
  lemma SeriesIsTabulate(weeks: seq<string>, counts: map<string, nat>, keys: seq<string>)
    requires forall k :: k in counts <==> k in weeks
    requires forall k :: k in counts ==> counts[k] == multiset(keys)[k]
    ensures Series(weeks, counts) == Tabulate(weeks, keys)
  {
  }

  /** The `/metrics/:owner/:repo` handler once the pull requests and branches have been fetched. */
  method RepoMetrics(range: Option<string>, monthsBefore: nat -> Stamp,
                     prs: seq<RawPullRequest>, branches: seq<RawBranch>)
    returns (report: RepoReport)
    ensures var start := WindowStart(range, monthsBefore);
      && report.prTrends == Trends(Repository, prs, start)
      && report.avgMergeTime ==
           AverageMergeTime(TotalMillis(Repository, Qualifying(Repository, prs, start)),
                            |Qualifying(Repository, prs, start)|)
      && report.branchActivity == [BranchActivity(start, |branches|, 0)]
  {
    var start := WindowStart(range, monthsBefore);
    var weeks, counts, total, count := Tally(Repository, prs, start);
    SeriesIsTabulate(weeks, counts, Keys(Repository, prs, start));
    var avg := AverageMergeTime(total, count);
    // the API keeps no history of deleted branches
    var activity := [BranchActivity(start, |branches|, 0)];
    report := RepoReport(Series(weeks, counts), avg, activity);
  }

  /** The `/developer-metrics/:owner/:repo/:developer` handler once the pull requests have been fetched. */
  method DeveloperMetrics(range: Option<string>, monthsBefore: nat -> Stamp,
                          developer: string, nullDate: NullDate, prs: seq<RawPullRequest>)
    returns (report: DeveloperReport)
    ensures var start := WindowStart(range, monthsBefore);
      var scope := Developer(developer, nullDate);
      && report.individualPrTrends == Trends(scope, prs, start)
      && report.avgMergeTime ==
           AverageMergeTime(TotalMillis(scope, Qualifying(scope, prs, start)),
                            |Qualifying(scope, prs, start)|)
  {
    var start := WindowStart(range, monthsBefore);
    var weeks, counts, total, count := Tally(Developer(developer, nullDate), prs, start);
    SeriesIsTabulate(weeks, counts, Keys(Developer(developer, nullDate), prs, start));
    report := DeveloperReport(Series(weeks, counts), AverageMergeTime(total, count));
  }
}
