/**
 * What the two aggregation passes of backend/server.js promise, stated
 * about the specification functions of module Metrics (which the handlers
 * are proved to compute).
 */
module MetricsProperties {
  import opened Wrappers
  import opened Seqs
  import opened Records
  import opened Weeks
  import opened Metrics

  // -------------------------------------------------- which pull requests count

  /** Filtering distributes over concatenation of the input. */
  lemma {:induction false} QualifyingAppend(scope: Scope, a: seq<RawPullRequest>, b: seq<RawPullRequest>, start: Stamp)
    ensures Qualifying(scope, a + b, start) == Qualifying(scope, a, start) + Qualifying(scope, b, start)
    decreases |b|
  {
    if b == [] {
      assert a + b == a;
    } else {
      var n := |b| - 1;
      assert (a + b)[..|a| + n] == a + b[..n];
      assert (a + b)[|a| + n] == b[n];
      QualifyingAppend(scope, a, b[..n], start);
    }
  }

  /**
   * The repository-wide pass: a pull request without `merged_at`, wherever it
   * stands in the input, changes neither the contributing list (hence the
   * buckets, the total merge time and the count) nor the trend series.
   */
  lemma UnmergedIsIgnored(a: seq<RawPullRequest>, pr: RawPullRequest, b: seq<RawPullRequest>, start: Stamp)
    requires pr.mergedAt.None?
    ensures Qualifying(Repository, a + [pr] + b, start) == Qualifying(Repository, a + b, start)
    ensures Trends(Repository, a + [pr] + b, start) == Trends(Repository, a + b, start)
  {
    QualifyingAppend(Repository, a + [pr], b, start);
    QualifyingAppend(Repository, a, [pr], start);
    QualifyingAppend(Repository, a, b, start);
    assert Qualifying(Repository, [pr], start) == [] by {
      assert [pr][..0] == [];
    }
  }

  /**
   * The contributing list is the input filtered by `Qualifies`: every copy of
   * a qualifying pull request is kept and no other pull request is.
   */
  lemma {:induction false} QualifyingIsFilter(scope: Scope, prs: seq<RawPullRequest>, start: Stamp, pr: RawPullRequest)
    ensures multiset(Qualifying(scope, prs, start))[pr] ==
      if Qualifies(scope, pr, start) then multiset(prs)[pr] else 0
  {
    if prs != [] {
      var n := |prs| - 1;
      assert prs == prs[..n] + [prs[n]];
      QualifyingIsFilter(scope, prs[..n], start, pr);
    }
  }

  /** The repository-wide window test: merged, and at or after the start, with no upper bound. */
  lemma RepositoryWindow(pr: RawPullRequest, start: Stamp)
    ensures Qualifies(Repository, pr, start) <==>
      pr.mergedAt.Some? && pr.mergedAt.value.millis >= start.millis
  {
  }

  /**
   * The developer window test: authored by exactly that login, and
   * `merged_at || closed_at` at or after the start. A closed but unmerged pull
   * request therefore counts here although the repository-wide pass skips it.
   */
  lemma DeveloperWindow(login: string, nullDate: NullDate, pr: RawPullRequest, start: Stamp)
    ensures Qualifies(Developer(login, nullDate), pr, start) <==>
      && pr.user == Some(User(login))
      && pr.mergedAt.GetOr(pr.closedAt.GetOr(nullDate)).millis >= start.millis
    ensures (pr.user == Some(User(login)) && pr.mergedAt.None? && pr.closedAt.Some? &&
             pr.closedAt.value.millis >= start.millis) ==>
      Qualifies(Developer(login, nullDate), pr, start) && !Qualifies(Repository, pr, start)
  {
  }

  /**
   * A pull request by the developer with neither `merged_at` nor `closed_at`
   * is dated `new Date(null)`: it contributes exactly when the window starts
   * at or before instant zero, in the bucket of the server's local reading
   * of that instant, with merge time minus its creation instant.
   */
  lemma UndatedPullRequest(login: string, nullDate: NullDate, pr: RawPullRequest, start: Stamp)
    requires pr.user == Some(User(login)) && pr.mergedAt.None? && pr.closedAt.None?
    ensures Qualifies(Developer(login, nullDate), pr, start) <==> start.millis <= 0
    ensures BucketOf(Developer(login, nullDate), pr) == WeekKey(nullDate)
    ensures MergeMillis(Developer(login, nullDate), pr) == -pr.createdAt.millis
  {
  }

  // ------------------------------------------------------------ buckets

  /** The keys list one bucket per contributing pull request, in the same order. */
  lemma {:induction false} KeysOfQualifying(scope: Scope, prs: seq<RawPullRequest>, start: Stamp)
    ensures var q, keys := Qualifying(scope, prs, start), Keys(scope, prs, start);
      |keys| == |q| && forall i :: 0 <= i < |q| ==> keys[i] == BucketOf(scope, q[i])
  {
    BucketsAt(scope, Qualifying(scope, prs, start));
  }

  lemma {:induction false} BucketsAt(scope: Scope, q: seq<RawPullRequest>)
    ensures forall i :: 0 <= i < |q| ==> Buckets(scope, q)[i] == BucketOf(scope, q[i])
  {
    if q != [] {
      var n := |q| - 1;
      BucketsAt(scope, q[..n]);
    }
  }

  /** A contributing pull request's bucket is the week key of its qualifying instant. */
  lemma BucketOfQualifying(scope: Scope, pr: RawPullRequest, start: Stamp)
    requires Qualifies(scope, pr, start)
    ensures BucketOf(scope, pr) == WeekKey(QualifyingTime(scope, pr).value)
  {
  }

  // ----------------------------------------------------- first-seen order

  /** `FirstSeen` lists the keys in the order of their first occurrences. */
  lemma {:induction false} FirstSeenOrder(keys: seq<string>)
    ensures forall k :: k in FirstSeen(keys) ==> k in keys
    ensures forall i, j :: 0 <= i < j < |FirstSeen(keys)| ==>
      FirstIndex(keys, FirstSeen(keys)[i]) < FirstIndex(keys, FirstSeen(keys)[j])
  {
    FirstSeenDistinct(keys);
    if keys != [] {
      var n := |keys| - 1;
      var ks, x := keys[..n], keys[n];
      assert keys == ks + [x];
      FirstSeenOrder(ks);
      FirstSeenDistinct(ks);
      FirstSeenStep(ks, x);
      forall k | k in ks ensures FirstIndex(keys, k) == FirstIndex(ks, k) && FirstIndex(ks, k) < n {
        FirstIndexAppend(ks, x, k);
      }
    }
  }

  function WeeksOf(ts: seq<WeekCount>): (ws: seq<string>)
    ensures |ws| == |ts|
  {
    seq(|ts|, i requires 0 <= i < |ts| => ts[i].week)
  }

  /** `pr_count` summed over a series. */
  function TotalCount(ts: seq<WeekCount>): nat
  {
    if ts == [] then 0 else var n := |ts| - 1; TotalCount(ts[..n]) + ts[n].prCount
  }

  /**
   * The trend series of a pass lists each bucket of a contributing pull
   * request exactly once, in the order the buckets were first met, each with
   * the number of contributing pull requests in it (at least one).
   */
  lemma TrendsShape(scope: Scope, prs: seq<RawPullRequest>, start: Stamp)
    ensures var keys, ts := Keys(scope, prs, start), Trends(scope, prs, start);
      && WeeksOf(ts) == FirstSeen(keys)
      && NoDuplicates(WeeksOf(ts))
      && (forall k :: k in WeeksOf(ts) <==> k in keys)
      && (forall i :: 0 <= i < |ts| ==> ts[i].prCount == multiset(keys)[ts[i].week] >= 1)
  {
    var keys, ts := Keys(scope, prs, start), Trends(scope, prs, start);
    FirstSeenDistinct(keys);
    assert WeeksOf(ts) == FirstSeen(keys);
    forall i | 0 <= i < |ts| ensures ts[i].prCount == multiset(keys)[ts[i].week] >= 1 {
      assert ts[i].week in FirstSeen(keys);
    }
  }

  /** The series lists its weeks in first-seen order of the contributing pull requests' buckets. */
  lemma TrendsFirstSeenOrder(scope: Scope, prs: seq<RawPullRequest>, start: Stamp)
    ensures var keys, ts := Keys(scope, prs, start), Trends(scope, prs, start);
      && (forall i :: 0 <= i < |ts| ==> ts[i].week in keys)
      && (forall i, j :: 0 <= i < j < |ts| ==> FirstIndex(keys, ts[i].week) < FirstIndex(keys, ts[j].week))
  {
    var keys := Keys(scope, prs, start);
    FirstSeenOrder(keys);
  }

  // ---------------------------------------------------------------- totals

  lemma TabulateSnoc(ws: seq<string>, w: string, keys: seq<string>)
    ensures TotalCount(Tabulate(ws + [w], keys)) == TotalCount(Tabulate(ws, keys)) + multiset(keys)[w]
  {
    var t := Tabulate(ws + [w], keys);
    assert t[..|ws|] == Tabulate(ws, keys);
  }

  /** Seeing `x` once more adds one to the total of a series that lists `x`, and nothing otherwise. */
  lemma {:induction false} TabulateBump(ws: seq<string>, keys: seq<string>, x: string)
    requires NoDuplicates(ws)
    ensures TotalCount(Tabulate(ws, keys + [x])) ==
      TotalCount(Tabulate(ws, keys)) + (if x in ws then 1 else 0)
  {
    if ws != [] {
      var n := |ws| - 1;
      assert ws == ws[..n] + [ws[n]];
      TabulateBump(ws[..n], keys, x);
      TabulateSnoc(ws[..n], ws[n], keys + [x]);
      TabulateSnoc(ws[..n], ws[n], keys);
      assert x == ws[n] ==> x !in ws[..n];
    }
  }

  /** The counts of the first-seen tabulation add up to the number of keys. */
  lemma {:induction false} TabulateTotal(keys: seq<string>)
    ensures TotalCount(Tabulate(FirstSeen(keys), keys)) == |keys|
  {
    if keys != [] {
      var n := |keys| - 1;
      var ks, x := keys[..n], keys[n];
      assert keys == ks + [x];
      TabulateTotal(ks);
      FirstSeenStep(ks, x);
      FirstSeenDistinct(ks);
      TabulateBump(FirstSeen(ks), ks, x);
      if x !in ks {
        TabulateSnoc(FirstSeen(ks), x, keys);
      }
    }
  }

  /** The bucket counts add up to the number of contributing pull requests (`mergedPRCount`). */
  lemma TrendsTotal(scope: Scope, prs: seq<RawPullRequest>, start: Stamp)
    ensures TotalCount(Trends(scope, prs, start)) == |Qualifying(scope, prs, start)|
  {
    TabulateTotal(Keys(scope, prs, start));
  }

  /** No series and the number 0 as average exactly when nothing contributes. */
  lemma EmptyWindow(scope: Scope, prs: seq<RawPullRequest>, start: Stamp)
    ensures Trends(scope, prs, start) == [] <==> Qualifying(scope, prs, start) == []
    ensures var q := Qualifying(scope, prs, start);
      AverageMergeTime(TotalMillis(scope, q), |q|) == Zero <==> q == []
  {
    var keys := Keys(scope, prs, start);
    FirstSeenDistinct(keys);
    assert |Trends(scope, prs, start)| == |FirstSeen(keys)|;
    if keys != [] {
      assert keys[0] in FirstSeen(keys);
    }
  }

  // ---------------------------------------------- developer versus repository

  /**
   * When every pull request by the developer is merged (other authors' may
   * be unmerged), each bucket of a developer's series holds no more than the
   * same bucket of the repository-wide series.
   */
  lemma {:induction false} DeveloperWithinRepository(login: string, nullDate: NullDate, prs: seq<RawPullRequest>, start: Stamp)
    requires forall i :: 0 <= i < |prs| && prs[i].user == Some(User(login)) ==> prs[i].mergedAt.Some?
    ensures multiset(Keys(Developer(login, nullDate), prs, start)) <= multiset(Keys(Repository, prs, start))
  {
    if prs != [] {
      var n := |prs| - 1;
      var pr := prs[n];
      assert prs[..n + 1] == prs;
      DeveloperWithinRepository(login, nullDate, prs[..n], start);
      StepPrefix(Developer(login, nullDate), prs, n, start);
      StepPrefix(Repository, prs, n, start);
      if Qualifies(Developer(login, nullDate), pr, start) {
        assert Qualifies(Repository, pr, start);
        assert BucketOf(Developer(login, nullDate), pr) == BucketOf(Repository, pr);
      }
    }
  }

  /** Every pull request merged and authored by `login`. */
  predicate AllMergedBy(login: string, prs: seq<RawPullRequest>)
  {
    forall i :: 0 <= i < |prs| ==> prs[i].mergedAt.Some? && prs[i].user == Some(User(login))
  }

  /** On such a pull request both passes agree on whether, where and how long. */
  lemma MergedByAgree(login: string, nullDate: NullDate, pr: RawPullRequest, start: Stamp)
    requires pr.mergedAt.Some? && pr.user == Some(User(login))
    ensures Qualifies(Developer(login, nullDate), pr, start) == Qualifies(Repository, pr, start)
    ensures BucketOf(Developer(login, nullDate), pr) == BucketOf(Repository, pr)
    ensures MergeMillis(Developer(login, nullDate), pr) == MergeMillis(Repository, pr)
  {
  }

  lemma {:induction false} SoleAuthorQualifying(login: string, nullDate: NullDate, prs: seq<RawPullRequest>, start: Stamp)
    requires AllMergedBy(login, prs)
    ensures Qualifying(Developer(login, nullDate), prs, start) == Qualifying(Repository, prs, start)
  {
    if prs != [] {
      var n := |prs| - 1;
      assert AllMergedBy(login, prs[..n]);
      SoleAuthorQualifying(login, nullDate, prs[..n], start);
      MergedByAgree(login, nullDate, prs[n], start);
    }
  }

  lemma {:induction false} SoleAuthorBuckets(login: string, nullDate: NullDate, q: seq<RawPullRequest>)
    requires AllMergedBy(login, q)
    ensures Buckets(Developer(login, nullDate), q) == Buckets(Repository, q)
    ensures TotalMillis(Developer(login, nullDate), q) == TotalMillis(Repository, q)
  {
    if q != [] {
      var n := |q| - 1;
      assert AllMergedBy(login, q[..n]);
      SoleAuthorBuckets(login, nullDate, q[..n]);
      // only the bucket and merge-time clauses are used, so any window start will do
      MergedByAgree(login, nullDate, q[n], q[n].createdAt);
    }
  }

  /**
   * When the developer authored every pull request and every one was merged,
   * the developer's report equals the repository-wide one.
   */
  lemma SoleAuthor(login: string, nullDate: NullDate, prs: seq<RawPullRequest>, start: Stamp)
    requires AllMergedBy(login, prs)
    ensures Qualifying(Developer(login, nullDate), prs, start) == Qualifying(Repository, prs, start)
    ensures Trends(Developer(login, nullDate), prs, start) == Trends(Repository, prs, start)
    ensures TotalMillis(Developer(login, nullDate), Qualifying(Developer(login, nullDate), prs, start)) ==
            TotalMillis(Repository, Qualifying(Repository, prs, start))
  {
    SoleAuthorQualifying(login, nullDate, prs, start);
    var q := Qualifying(Repository, prs, start);
    forall i | 0 <= i < |q| ensures q[i].mergedAt.Some? && q[i].user == Some(User(login)) {
      QualifyingIsFilter(Repository, prs, start, q[i]);
      assert q[i] in multiset(prs);
    }
    SoleAuthorBuckets(login, nullDate, q);
  }

  /**
   * A negative mean keeps its sign however small it is: a mean within half a
   * hundredth of a day below zero prints "-0.00", unlike a zero mean, "0.00".
   */
  lemma NegativeZero(totalMillis: int, count: nat)
    requires count > 0 && totalMillis < 0 && 200 * -totalMillis < count * MillisPerDay
    ensures AverageMergeTime(totalMillis, count) == Fixed(true, 0)
    ensures AverageMergeTime(0, count) == Fixed(false, 0)
  {
    var d := count * MillisPerDay;
    RoundUpBelowHalf(-100 * totalMillis, d);
    RoundUpBelowHalf(0, d);
  }

  /** A quotient below one half rounds to zero. */
  lemma RoundUpBelowHalf(n: nat, d: int)
    requires d > 0 && 2 * n < d
    ensures RoundUp(n, d) == 0
  {
  }

  // ------------------------------------------------------------- scenarios

  /**
   * A pull request opened on 28 April 2024 and merged on 2 May 2024, inside
   * a window that starts before it: one bucket "2024-W1" with one pull
   * request, and an average of 4.00 days.
   */
  lemma MayScenario(start: Stamp, created: int, rest: RawPullRequest)
    requires start.millis <= created
    ensures var merged := Stamp(created + 4 * MillisPerDay, 2024, 2);
      var pr := rest.(createdAt := Stamp(created, 2024, 28), mergedAt := Some(merged));
      var q := Qualifying(Repository, [pr], start);
      && Trends(Repository, [pr], start) == [WeekCount("2024-W1", 1)]
      && AverageMergeTime(TotalMillis(Repository, q), |q|) == Fixed(false, 400)
  {
    var merged := Stamp(created + 4 * MillisPerDay, 2024, 2);
    var pr := rest.(createdAt := Stamp(created, 2024, 28), mergedAt := Some(merged));
    Single(Repository, pr, start);
    SecondOfMayIsWeekOne(merged.millis);
    assert FirstSeen(["2024-W1"]) == ["2024-W1"] by {
      assert ["2024-W1"][..0] == [];
    }
    FourDays();
  }

  /** The pass over a single pull request. */
  lemma Single(scope: Scope, pr: RawPullRequest, start: Stamp)
    ensures Qualifying(scope, [pr], start) == if Qualifies(scope, pr, start) then [pr] else []
    ensures Keys(scope, [pr], start) == if Qualifies(scope, pr, start) then [BucketOf(scope, pr)] else []
    ensures TotalMillis(scope, Qualifying(scope, [pr], start)) ==
      if Qualifies(scope, pr, start) then MergeMillis(scope, pr) else 0
  {
    assert [pr][..0] == [];
  }

  lemma FourDays()
    ensures AverageMergeTime(4 * MillisPerDay, 1) == Fixed(false, 400)
  {
    assert RoundUp(400 * MillisPerDay, MillisPerDay) == 400;
  }

  /**
   * One pull request never merged and one merged before the window: no
   * series, and the number 0 as average.
   */
  lemma NothingInWindow(start: Stamp, unmerged: RawPullRequest, stale: RawPullRequest)
    requires unmerged.mergedAt.None?
    requires stale.mergedAt.Some? && stale.mergedAt.value.millis < start.millis
    ensures var q := Qualifying(Repository, [unmerged, stale], start);
      && Trends(Repository, [unmerged, stale], start) == []
      && AverageMergeTime(TotalMillis(Repository, q), |q|) == Zero
  {
    assert [unmerged, stale][..1] == [unmerged];
    assert [unmerged][..0] == [];
    assert Qualifying(Repository, [unmerged, stale], start) == [];
    assert |Trends(Repository, [unmerged, stale], start)| == |FirstSeen([])| == 0;
  }
}
