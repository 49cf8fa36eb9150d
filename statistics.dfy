/** The statistics aggregation engine of the backend
    (jenkins-platform-backend/src/services/statistics.service.ts), with every
    fetch from the CI server taken out: each operation receives the build
    records (or the fetch failure) it would have fetched, and the clock
    reading `now` instead of calling `Date.now()`. */
module Statistics {
  import opened Wrappers
  import opened JenkinsTypes

  /** `24 * 60 * 60 * 1000`, one day in milliseconds. */
  const OneDayMs: int := 24 * 60 * 60 * 1000

  // ---------------------------------------------------------------------
  // Math.round of a quotient
  // ---------------------------------------------------------------------

  /** `Math.round(a / b)` for a positive divisor: the integer nearest to
      `a / b`, halves rounded towards +infinity. Dafny's `/` is floor
      division when the divisor is positive, so this is exact for every `a`. */
  function RoundDiv(a: int, b: int): (r: int)
    requires b > 0
    ensures 2 * b * r <= 2 * a + b < 2 * b * r + 2 * b
  {
    (2 * a + b) / (2 * b)
  }

  lemma MulMonotone(c: int, x: int, y: int)
    requires c >= 0 && x <= y
    ensures c * x <= c * y
  {
    assert c * y - c * x == c * (y - x);
  }

  lemma MulStrictMonotone(c: int, x: int, y: int)
    requires c > 0 && x < y
    ensures c * x < c * y
  {
    assert c * y - c * x == c * (y - x);
  }

  /** The two bounds of `RoundDiv` determine its value. */
  lemma RoundDivUnique(a: int, b: int, r: int)
    requires b > 0
    requires 2 * b * r <= 2 * a + b < 2 * b * r + 2 * b
    ensures RoundDiv(a, b) == r
  {
    var q := RoundDiv(a, b);
    if q < r {
      MulMonotone(2 * b, q + 1, r);
    } else if q > r {
      MulMonotone(2 * b, r + 1, q);
    }
  }

  lemma RoundDivMonotone(a1: int, a2: int, b: int)
    requires b > 0 && a1 <= a2
    ensures RoundDiv(a1, b) <= RoundDiv(a2, b)
  {
    var r1, r2 := RoundDiv(a1, b), RoundDiv(a2, b);
    if r1 > r2 {
      MulMonotone(2 * b, r2 + 1, r1);
    }
  }

  /** Scaling numerator and denominator alike does not change the rounded quotient. */
  lemma RoundDivScaled(a: int, b: int, n: int)
    requires b > 0 && n > 0
    ensures RoundDiv(n * a, n * b) == RoundDiv(a, b)
  {
    var r := RoundDiv(a, b);
    MulMonotone(n, 2 * b * r, 2 * a + b);
    MulStrictMonotone(n, 2 * a + b, 2 * b * r + 2 * b);
    assert n * (2 * b * r) == 2 * (n * b) * r;
    assert n * (2 * a + b) == 2 * (n * a) + n * b;
    assert n * (2 * b * r + 2 * b) == 2 * (n * b) * r + 2 * (n * b);
    RoundDivUnique(n * a, n * b, r);
  }

  /** `Math.round((count / total) * 100)`: the percentage of `total` that
      `count` makes up, rounded to a whole number. */
  function Percent(count: int, total: int): (p: int)
    requires total > 0
    ensures 0 <= count <= total ==> 0 <= p <= 100
  {
    ShareInRange(count, total);
    RoundDiv(100 * count, total)
  }

  /** A part of a whole is between 0 and 100 percent of it, after rounding too. */
  lemma ShareInRange(count: int, total: int)
    requires total > 0
    ensures 0 <= count <= total ==> 0 <= RoundDiv(100 * count, total) <= 100
  {
    if 0 <= count <= total {
      RoundDivUnique(0, total, 0);
      RoundDivUnique(100 * total, total, 100);
      RoundDivMonotone(0, 100 * count, total);
      RoundDivMonotone(100 * count, 100 * total, total);
    }
  }

  /** `total > 0 ? Math.round((part / total) * 100) : 0`, the success rate
      guarded against an empty denominator. */
  function RateOrZero(part: nat, total: nat): (rate: int)
    ensures total == 0 ==> rate == 0
    ensures total > 0 ==> rate == Percent(part, total)
    ensures part <= total ==> 0 <= rate <= 100
  {
    if total > 0 then Percent(part, total) else 0
  }

  // ---------------------------------------------------------------------
  // calculateBuildStatistics and calculateAverageDuration
  // ---------------------------------------------------------------------

  /** `builds.filter(b => b.result === r).length`. */
  function CountResult(builds: seq<BuildInfo>, r: string): (n: nat)
    ensures n <= |builds|
  {
    if builds == [] then 0
    else
      CountResult(builds[..|builds| - 1], r)
      + (if HasResult(builds[|builds| - 1], r) then 1 else 0)
  }

  /** The `result` fields of the builds, in order. */
  function Results(builds: seq<BuildInfo>): (rs: seq<Option<string>>)
    ensures |rs| == |builds|
    ensures forall i :: 0 <= i < |builds| ==> rs[i] == builds[i].result
  {
    seq(|builds|, i requires 0 <= i < |builds| => builds[i].result)
  }

  /** Counting by filtering agrees with the multiplicity of the result in
      the multiset of all results: every build is counted once, under its
      own result. */
  lemma {:induction false} CountResultIsMultiplicity(builds: seq<BuildInfo>, r: string)
    ensures CountResult(builds, r) == multiset(Results(builds))[Some(r)]
  {
    if builds != [] {
      var n := |builds| - 1;
      CountResultIsMultiplicity(builds[..n], r);
      assert Results(builds) == Results(builds[..n]) + [builds[n].result];
    }
  }

  /** The four result categories that calculateBuildStatistics counts. */
  predicate IsKnownResult(b: BuildInfo)
  {
    b.result.Some? && b.result.value in {"SUCCESS", "FAILURE", "UNSTABLE", "ABORTED"}
  }

  function CategoryTotal(builds: seq<BuildInfo>): nat
  {
    CountResult(builds, "SUCCESS") + CountResult(builds, "FAILURE")
    + CountResult(builds, "UNSTABLE") + CountResult(builds, "ABORTED")
  }

  /** The four category counts never exceed the number of builds, and they
      add up to it exactly when every build has one of the four results. */
  lemma {:induction false} CategoryCountsBounded(builds: seq<BuildInfo>)
    ensures CategoryTotal(builds) <= |builds|
    ensures CategoryTotal(builds) == |builds|
            <==> forall i :: 0 <= i < |builds| ==> IsKnownResult(builds[i])
  {
    if builds != [] {
      var n := |builds| - 1;
      var pre := builds[..n];
      CategoryCountsBounded(pre);
      assert CategoryTotal(builds) == CategoryTotal(pre) + (if IsKnownResult(builds[n]) then 1 else 0);
      if forall i :: 0 <= i < |builds| ==> IsKnownResult(builds[i]) {
        assert forall i :: 0 <= i < |pre| ==> IsKnownResult(pre[i]) by {
          forall i | 0 <= i < |pre| ensures IsKnownResult(pre[i]) {
            assert pre[i] == builds[i];
          }
        }
      }
      if CategoryTotal(builds) == |builds| {
        forall i | 0 <= i < |builds| ensures IsKnownResult(builds[i]) {
          if i < n {
            assert pre[i] == builds[i];
          }
        }
      }
    }
  }

  /** `builds.reduce((sum, build) => sum + build.duration, 0)`. */
  function TotalDuration(builds: seq<BuildInfo>): (total: int)
    ensures (forall i :: 0 <= i < |builds| ==> builds[i].duration >= 0) ==> total >= 0
  {
    if builds == [] then 0
    else TotalDuration(builds[..|builds| - 1]) + builds[|builds| - 1].duration
  }

  lemma MulSucc(n: int, x: int)
    ensures (n + 1) * x == n * x + x
  {
  }

  /** When every duration lies in `[lo, hi]`, the total lies in `[n*lo, n*hi]`. */
  lemma {:induction false} TotalDurationBetween(builds: seq<BuildInfo>, lo: int, hi: int)
    requires forall i :: 0 <= i < |builds| ==> lo <= builds[i].duration <= hi
    ensures |builds| * lo <= TotalDuration(builds) <= |builds| * hi
  {
    if builds != [] {
      var n := |builds| - 1;
      assert forall i :: 0 <= i < n ==> builds[..n][i] == builds[i];
      TotalDurationBetween(builds[..n], lo, hi);
      MulSucc(n, lo);
      MulSucc(n, hi);
    }
  }

  /** `calculateAverageDuration`: 0 for no builds, otherwise
      `Math.round(totalDuration / builds.length / 1000)`, in whole seconds. */
  function CalculateAverageDuration(builds: seq<BuildInfo>): (avg: int)
    ensures builds == [] ==> avg == 0
    ensures (forall i :: 0 <= i < |builds| ==> builds[i].duration >= 0) ==> avg >= 0
  {
    if |builds| == 0 then 0
    else
      RoundedNonNegative(TotalDuration(builds), |builds| * 1000);
      RoundDiv(TotalDuration(builds), |builds| * 1000)
  }

  /** A non-negative quotient rounds to a non-negative whole number. */
  lemma RoundedNonNegative(a: int, b: int)
    requires b > 0
    ensures a >= 0 ==> RoundDiv(a, b) >= 0
  {
    RoundDivUnique(0, b, 0);
    if a >= 0 {
      RoundDivMonotone(0, a, b);
    }
  }

  /** The average lies between the fastest and the slowest build, each
      rounded to whole seconds the same way. */
  lemma AverageDurationBetween(builds: seq<BuildInfo>, lo: int, hi: int)
    requires builds != []
    requires forall i :: 0 <= i < |builds| ==> lo <= builds[i].duration <= hi
    ensures RoundDiv(lo, 1000) <= CalculateAverageDuration(builds) <= RoundDiv(hi, 1000)
  {
    var n := |builds|;
    TotalDurationBetween(builds, lo, hi);
    RoundDivScaled(lo, 1000, n);
    RoundDivScaled(hi, 1000, n);
    assert n * 1000 == 1000 * n;
    RoundDivMonotone(n * lo, TotalDuration(builds), n * 1000);
    RoundDivMonotone(TotalDuration(builds), n * hi, n * 1000);
  }

  datatype BuildStatistics = BuildStatistics(
    totalBuilds: nat,
    successCount: nat,
    failureCount: nat,
    unstableCount: nat,
    abortedCount: nat,
    successRate: int,
    averageDuration: int)

  /** `calculateBuildStatistics`: the per-category counts, the success rate
      and the average duration of a list of builds. */
  function CalculateBuildStatistics(builds: seq<BuildInfo>): (s: BuildStatistics)
    ensures s.totalBuilds == |builds|
    ensures s.successCount == CountResult(builds, "SUCCESS")
    ensures s.failureCount == CountResult(builds, "FAILURE")
    ensures s.unstableCount == CountResult(builds, "UNSTABLE")
    ensures s.abortedCount == CountResult(builds, "ABORTED")
    ensures s.successCount + s.failureCount + s.unstableCount + s.abortedCount <= s.totalBuilds
    ensures s.successRate == RateOrZero(s.successCount, s.totalBuilds)
    ensures 0 <= s.successRate <= 100
    ensures s.averageDuration == CalculateAverageDuration(builds)
    ensures builds == [] ==> s == BuildStatistics(0, 0, 0, 0, 0, 0, 0)
  {
    CategoryCountsBounded(builds);
    var success := CountResult(builds, "SUCCESS");
    BuildStatistics(
      |builds|,
      success,
      CountResult(builds, "FAILURE"),
      CountResult(builds, "UNSTABLE"),
      CountResult(builds, "ABORTED"),
      RateOrZero(success, |builds|),
      CalculateAverageDuration(builds))
  }

  /** Three builds SUCCESS, FAILURE, SUCCESS lasting 10, 20 and 30 seconds. */
  lemma SummaryOfThreeBuilds()
    ensures CalculateBuildStatistics([
              BuildInfo(1, "", Some("SUCCESS"), 0, 10000, false),
              BuildInfo(2, "", Some("FAILURE"), 0, 20000, false),
              BuildInfo(3, "", Some("SUCCESS"), 0, 30000, false)])
            == BuildStatistics(3, 2, 1, 0, 0, 67, 20)
  {
    var bs := [
      BuildInfo(1, "", Some("SUCCESS"), 0, 10000, false),
      BuildInfo(2, "", Some("FAILURE"), 0, 20000, false),
      BuildInfo(3, "", Some("SUCCESS"), 0, 30000, false)];
    assert bs[..2][..1] == bs[..1];
    assert bs[..1][..0] == [];
    assert CountResult(bs, "SUCCESS") == 2;
    assert CountResult(bs, "FAILURE") == 1;
    assert CountResult(bs, "UNSTABLE") == 0;
    assert CountResult(bs, "ABORTED") == 0;
    assert TotalDuration(bs[..1]) == 10000;
    assert TotalDuration(bs[..2]) == 30000;
    assert TotalDuration(bs) == 60000;
    RoundDivUnique(200, 3, 67);
    RoundDivUnique(60000, 3000, 20);
  }

  // ---------------------------------------------------------------------
  // groupBuildsByDay and getTimeSeriesData
  // ---------------------------------------------------------------------

  /** `sub` is obtained from `s` by deleting elements, keeping the order. */
  predicate IsSubsequence(sub: seq<BuildInfo>, s: seq<BuildInfo>)
    decreases |s|
  {
    if sub == [] then true
    else if s == [] then false
    else if sub[|sub| - 1] == s[|s| - 1] then IsSubsequence(sub[..|sub| - 1], s[..|s| - 1])
    else IsSubsequence(sub, s[..|s| - 1])
  }

  /** `builds.filter(b => b.timestamp >= lo && b.timestamp < hi)`. */
  function InWindow(builds: seq<BuildInfo>, lo: int, hi: int): (w: seq<BuildInfo>)
    ensures |w| <= |builds|
  {
    if builds == [] then []
    else
      var n := |builds| - 1;
      var rest := InWindow(builds[..n], lo, hi);
      if lo <= builds[n].timestamp < hi then rest + [builds[n]] else rest
  }

  /** A build is in the window exactly when it is in the input and its
      timestamp lies in the half-open interval `[lo, hi)`. */
  lemma {:induction false} InWindowMembers(builds: seq<BuildInfo>, lo: int, hi: int)
    ensures forall b :: b in InWindow(builds, lo, hi) <==> b in builds && lo <= b.timestamp < hi
  {
    if builds != [] {
      var n := |builds| - 1;
      InWindowMembers(builds[..n], lo, hi);
      assert builds == builds[..n] + [builds[n]];
    }
  }

  /** The window is the order-preserving filter of the input: each build of
      the interval occurs in it as often as in the input, no other build
      occurs in it, and the input order is kept. */
  lemma InWindowIsFilter(builds: seq<BuildInfo>, lo: int, hi: int)
    ensures forall b :: multiset(InWindow(builds, lo, hi))[b]
                        == if lo <= b.timestamp < hi then multiset(builds)[b] else 0
    ensures IsSubsequence(InWindow(builds, lo, hi), builds)
  {
    InWindowCounts(builds, lo, hi);
    InWindowKeepsOrder(builds, lo, hi);
  }

  lemma {:induction false} InWindowCounts(builds: seq<BuildInfo>, lo: int, hi: int)
    ensures forall b :: multiset(InWindow(builds, lo, hi))[b]
                        == if lo <= b.timestamp < hi then multiset(builds)[b] else 0
  {
    if builds != [] {
      var n := |builds| - 1;
      InWindowCounts(builds[..n], lo, hi);
      assert builds == builds[..n] + [builds[n]];
      assert multiset(builds) == multiset(builds[..n]) + multiset{builds[n]};
    }
  }

  lemma {:induction false} InWindowKeepsOrder(builds: seq<BuildInfo>, lo: int, hi: int)
    ensures IsSubsequence(InWindow(builds, lo, hi), builds)
  {
    if builds != [] {
      var n := |builds| - 1;
      var rest := InWindow(builds[..n], lo, hi);
      InWindowKeepsOrder(builds[..n], lo, hi);
      if lo <= builds[n].timestamp < hi {
        assert (rest + [builds[n]])[..|rest|] == rest;
      } else {
        InWindowMembers(builds[..n], lo, hi);
        if rest != [] {
          assert rest[|rest| - 1] in rest;
        }
      }
    }
  }

  /** One bucket of groupBuildsByDay: the `YYYY-MM-DD` label of its start and its builds. */
  datatype DayGroup = DayGroup(date: string, builds: seq<BuildInfo>)

  /** `now - i * oneDayMs` for `i = days - 1 - k`: the start of the `k`-th
      bucket, counting from the oldest. */
  function DayStart(now: int, days: int, k: int): int
  {
    now - (days - 1 - k) * OneDayMs
  }

  function DayGroupAt(builds: seq<BuildInfo>, days: int, now: int, dateOf: int -> string, k: int): DayGroup
  {
    var start := DayStart(now, days, k);
    DayGroup(dateOf(start), InWindow(builds, start, start + OneDayMs))
  }

  /** The buckets groupBuildsByDay produces, oldest first; `dateOf` stands
      for `new Date(dayStart).toISOString().split('T')[0]`. */
  function DayGroups(builds: seq<BuildInfo>, days: int, now: int, dateOf: int -> string): (groups: seq<DayGroup>)
    ensures |groups| == if days > 0 then days else 0
  {
    seq(if days > 0 then days else 0, k => DayGroupAt(builds, days, now, dateOf, k))
  }

  /** `groupBuildsByDay`: the counting-down loop pushes the bucket of day
      `i` days before `now`, for `i = days - 1` down to 0. */
  method GroupBuildsByDay(builds: seq<BuildInfo>, days: int, now: int, dateOf: int -> string)
    returns (groups: seq<DayGroup>)
    ensures groups == DayGroups(builds, days, now, dateOf)
  {
    groups := [];
    var i := days - 1;
    while i >= 0
      invariant if days > 0 then -1 <= i < days else i == days - 1
      invariant |groups| == days - 1 - i
      invariant forall k :: 0 <= k < |groups| ==> groups[k] == DayGroupAt(builds, days, now, dateOf, k)
      decreases i
    {
      var dayStart := now - i * OneDayMs;
      var dayEnd := dayStart + OneDayMs;
      var date := dateOf(dayStart);
      var dayBuilds := InWindow(builds, dayStart, dayEnd);
      groups := groups + [DayGroup(date, dayBuilds)];
      i := i - 1;
    }
  }

  /** Exactly `max(days, 0)` buckets; bucket `k` is labelled with the day
      starting `days - 1 - k` days before `now`, so consecutive buckets start
      one day apart and the last one starts at `now`. */
  lemma DayGroupsAreConsecutiveDays(builds: seq<BuildInfo>, days: int, now: int, dateOf: int -> string)
    ensures var groups := DayGroups(builds, days, now, dateOf);
      && |groups| == (if days > 0 then days else 0)
      && (forall k :: 0 <= k < |groups| ==>
            groups[k].date == dateOf(now - (days - 1 - k) * OneDayMs))
      && (forall k :: 0 <= k < |groups| - 1 ==>
            DayStart(now, days, k + 1) == DayStart(now, days, k) + OneDayMs)
      && (days > 0 ==> groups[days - 1].date == dateOf(now))
  {
  }

  /** No build lies in two different buckets. */
  lemma DayGroupsDisjoint(builds: seq<BuildInfo>, days: int, now: int, dateOf: int -> string, j: int, k: int)
    requires 0 <= j < k < days
    ensures forall b :: !(b in DayGroups(builds, days, now, dateOf)[j].builds
                          && b in DayGroups(builds, days, now, dateOf)[k].builds)
  {
    var groups := DayGroups(builds, days, now, dateOf);
    var sj, sk := DayStart(now, days, j), DayStart(now, days, k);
    assert sj + OneDayMs <= sk;
    InWindowMembers(builds, sj, sj + OneDayMs);
    InWindowMembers(builds, sk, sk + OneDayMs);
  }

  /** The buckets tile `[now - (days - 1) * oneDayMs, now + oneDayMs)`: bucket
      `k` starts `k` days after the first one and ends inside the span. */
  lemma DayStartInSpan(now: int, days: int, k: int)
    requires 0 <= k < days
    ensures DayStart(now, days, k) == now - (days - 1) * OneDayMs + k * OneDayMs
    ensures now - (days - 1) * OneDayMs <= DayStart(now, days, k)
    ensures DayStart(now, days, k) + OneDayMs <= now + OneDayMs
  {
    MulMonotone(OneDayMs, 0, k);
    MulMonotone(OneDayMs, k, days - 1);
  }

  /** A time in the span lies in the bucket numbered by the whole days
      elapsed since the first bucket's start. */
  lemma DayOfTime(now: int, days: int, t: int) returns (k: int)
    requires now - (days - 1) * OneDayMs <= t < now + OneDayMs
    ensures 0 <= k < days
    ensures DayStart(now, days, k) <= t < DayStart(now, days, k) + OneDayMs
  {
    var first := now - (days - 1) * OneDayMs;
    var off := t - first;
    k := off / OneDayMs;
    assert k * OneDayMs <= off < k * OneDayMs + OneDayMs;
    MulSucc(days - 1, OneDayMs);
    if k >= days {
      MulMonotone(OneDayMs, days, k);
      assert false;
    }
    DayStartInSpan(now, days, k);
  }

  /** A build falls into some bucket exactly when its timestamp lies in the
      window `[now - (days - 1) * oneDayMs, now + oneDayMs)`. */
  lemma DayGroupsCover(builds: seq<BuildInfo>, days: int, now: int, dateOf: int -> string, b: BuildInfo)
    requires b in builds
    ensures (exists k :: 0 <= k < |DayGroups(builds, days, now, dateOf)|
                         && b in DayGroups(builds, days, now, dateOf)[k].builds)
            <==> now - (days - 1) * OneDayMs <= b.timestamp < now + OneDayMs
  {
    var groups := DayGroups(builds, days, now, dateOf);
    if now - (days - 1) * OneDayMs <= b.timestamp < now + OneDayMs {
      var k := DayOfTime(now, days, b.timestamp);
      InWindowMembers(builds, DayStart(now, days, k), DayStart(now, days, k) + OneDayMs);
      assert b in groups[k].builds;
    }
    if exists k :: 0 <= k < |groups| && b in groups[k].builds {
      var k :| 0 <= k < |groups| && b in groups[k].builds;
      InWindowMembers(builds, DayStart(now, days, k), DayStart(now, days, k) + OneDayMs);
      DayStartInSpan(now, days, k);
    }
  }

  datatype TimeSeriesPoint = TimeSeriesPoint(
    date: string,
    successCount: nat,
    failureCount: nat,
    averageDuration: int)

  /** The statistics of one day bucket, as getTimeSeriesData maps each group. */
  function DayStatistics(group: DayGroup): (p: TimeSeriesPoint)
    ensures p.date == group.date
    ensures p.successCount == CountResult(group.builds, "SUCCESS")
    ensures p.failureCount == CountResult(group.builds, "FAILURE")
    ensures p.successCount + p.failureCount <= |group.builds|
    ensures p.averageDuration == CalculateAverageDuration(group.builds)
    ensures group.builds == [] ==> p == TimeSeriesPoint(group.date, 0, 0, 0)
  {
    CategoryCountsBounded(group.builds);
    TimeSeriesPoint(
      group.date,
      CountResult(group.builds, "SUCCESS"),
      CountResult(group.builds, "FAILURE"),
      CalculateAverageDuration(group.builds))
  }

  /** `getTimeSeriesData`, given the fetched history: one point per day
      bucket, oldest first; an empty day reports zero counts and zero
      average duration. */
  method GetTimeSeriesData(builds: seq<BuildInfo>, days: int, now: int, dateOf: int -> string)
    returns (series: seq<TimeSeriesPoint>)
    ensures |series| == if days > 0 then days else 0
    ensures forall k :: 0 <= k < |series| ==>
              var dayStart := now - (days - 1 - k) * OneDayMs;
              var dayBuilds := InWindow(builds, dayStart, dayStart + OneDayMs);
              && series[k].date == dateOf(dayStart)
              && series[k].successCount == CountResult(dayBuilds, "SUCCESS")
              && series[k].failureCount == CountResult(dayBuilds, "FAILURE")
              && series[k].averageDuration == CalculateAverageDuration(dayBuilds)
  {
    var groups := GroupBuildsByDay(builds, days, now, dateOf);
    series := seq(|groups|, k requires 0 <= k < |groups| => DayStatistics(groups[k]));
  }

  // ---------------------------------------------------------------------
  // getStatusDistribution
  // ---------------------------------------------------------------------

  /** `build.result || 'UNKNOWN'`: a missing or empty result is counted as UNKNOWN. */
  function StatusKey(b: BuildInfo): (key: string)
    ensures key != ""
    ensures b.result.Some? && b.result.value != "" ==> key == b.result.value
    ensures b.result == None || b.result == Some("") ==> key == "UNKNOWN"
  {
    if b.result.Some? && b.result.value != "" then b.result.value else "UNKNOWN"
  }

  /** The distinct status keys of the builds, in order of first occurrence
      (the insertion order of the `statusCounts` record). */
  function StatusKeys(builds: seq<BuildInfo>): (keys: seq<string>)
    ensures |keys| <= |builds|
  {
    if builds == [] then []
    else
      var n := |builds| - 1;
      var keys := StatusKeys(builds[..n]);
      var s := StatusKey(builds[n]);
      if s in keys then keys else keys + [s]
  }

  /** The number of builds counted under status key `s`. */
  function StatusCount(builds: seq<BuildInfo>, s: string): (n: nat)
    ensures n <= |builds|
  {
    if builds == [] then 0
    else
      var n := |builds| - 1;
      StatusCount(builds[..n], s) + (if StatusKey(builds[n]) == s then 1 else 0)
  }

  /** Some build is counted under `s`. */
  predicate IsFiledUnder(builds: seq<BuildInfo>, s: string)
  {
    exists i :: 0 <= i < |builds| && StatusKey(builds[i]) == s
  }

  predicate Distinct(keys: seq<string>)
  {
    forall i, j :: 0 <= i < j < |keys| ==> keys[i] != keys[j]
  }

  /** One more build: its key is appended when it is new, and only its own
      key's count goes up by one. */
  lemma StatusOfOneMore(pre: seq<BuildInfo>, b: BuildInfo)
    ensures StatusKeys(pre + [b]) ==
            if StatusKey(b) in StatusKeys(pre) then StatusKeys(pre) else StatusKeys(pre) + [StatusKey(b)]
    ensures forall s :: StatusCount(pre + [b], s) == StatusCount(pre, s) + (if StatusKey(b) == s then 1 else 0)
  {
    assert (pre + [b])[..|pre|] == pre;
  }

  /** The keys are distinct, and a key is listed exactly when some build is
      counted under it. */
  lemma {:induction false} StatusKeysMembers(builds: seq<BuildInfo>)
    ensures Distinct(StatusKeys(builds))
    ensures forall s :: s in StatusKeys(builds) <==> IsFiledUnder(builds, s)
  {
    if builds != [] {
      var n := |builds| - 1;
      StatusKeysMembers(builds[..n]);
      StatusOfOneMore(builds[..n], builds[n]);
      assert builds == builds[..n] + [builds[n]];
      forall s | IsFiledUnder(builds, s)
        ensures s in StatusKeys(builds)
      {
        var i :| 0 <= i < |builds| && StatusKey(builds[i]) == s;
        if i < n {
          assert builds[..n][i] == builds[i];
          assert IsFiledUnder(builds[..n], s);
        }
      }
      forall s | s in StatusKeys(builds[..n])
        ensures IsFiledUnder(builds, s)
      {
        var i :| 0 <= i < n && StatusKey(builds[..n][i]) == s;
        assert builds[..n][i] == builds[i];
      }
    }
  }

  /** A key's count is positive exactly when the key is listed. */
  lemma {:induction false} StatusCountPositive(builds: seq<BuildInfo>, s: string)
    ensures StatusCount(builds, s) == 0 <==> s !in StatusKeys(builds)
  {
    if builds != [] {
      var n := |builds| - 1;
      StatusCountPositive(builds[..n], s);
      StatusOfOneMore(builds[..n], builds[n]);
      assert builds == builds[..n] + [builds[n]];
    }
  }

  datatype StatusEntry = StatusEntry(status: string, count: nat, percentage: int)

  /** The entries getStatusDistribution returns: one per distinct status key,
      in first-occurrence order, with its count and rounded percentage; no
      entries (and no division) for an empty history. */
  function StatusDistribution(builds: seq<BuildInfo>): (entries: seq<StatusEntry>)
    ensures |entries| == |StatusKeys(builds)|
  {
    if builds == [] then []
    else
      var keys := StatusKeys(builds);
      seq(|keys|, i requires 0 <= i < |keys| =>
        StatusEntry(keys[i], StatusCount(builds, keys[i]), Percent(StatusCount(builds, keys[i]), |builds|)))
  }

  /** `counts` and its key order `order` are the tallies of `builds`: the
      keys in first-occurrence order, each with its count. */
  ghost predicate Tallies(builds: seq<BuildInfo>, counts: map<string, nat>, order: seq<string>)
  {
    && order == StatusKeys(builds)
    && (forall s :: s in counts <==> s in order)
    && (forall s :: s in counts ==> counts[s] == StatusCount(builds, s))
  }

  /** One step of the `forEach`: bumping the build's key (from 0 when it is
      new, which also appends it to the key order) keeps the tallies. */
  lemma TalliesStep(pre: seq<BuildInfo>, b: BuildInfo, counts: map<string, nat>, order: seq<string>)
    requires Tallies(pre, counts, order)
    ensures var status := StatusKey(b);
      Tallies(pre + [b],
              counts[status := (if status in counts then counts[status] else 0) + 1],
              if status in counts then order else order + [status])
  {
    StatusOfOneMore(pre, b);
    var status := StatusKey(b);
    if status !in counts {
      StatusCountPositive(pre, status);
    }
  }

  /** The `forEach` of getStatusDistribution: `statusCounts[status] =
      (statusCounts[status] || 0) + 1` for every build. The record's keys are
      returned with their insertion order. */
  method CountByStatus(builds: seq<BuildInfo>) returns (statusCounts: map<string, nat>, order: seq<string>)
    ensures order == StatusKeys(builds)
    ensures forall s :: s in statusCounts <==> s in order
    ensures forall s :: s in statusCounts ==> statusCounts[s] == StatusCount(builds, s)
  {
    statusCounts := map[];
    order := [];
    for i := 0 to |builds|
      invariant Tallies(builds[..i], statusCounts, order)
    {
      assert builds[..i + 1] == builds[..i] + [builds[i]];
      TalliesStep(builds[..i], builds[i], statusCounts, order);
      var status := StatusKey(builds[i]);
      var previous := if status in statusCounts then statusCounts[status] else 0;
      if status !in statusCounts {
        order := order + [status];
      }
      statusCounts := statusCounts[status := previous + 1];
    }
    assert builds[..|builds|] == builds;
  }

  /** `getStatusDistribution`, given the fetched history: the counts, in
      the record's key order, each turned into a `{status, count,
      percentage}` triple. */
  method GetStatusDistribution(builds: seq<BuildInfo>) returns (entries: seq<StatusEntry>)
    ensures entries == StatusDistribution(builds)
  {
    var statusCounts, order := CountByStatus(builds);
    var total := |builds|;
    if total == 0 {
      entries := [];
    } else {
      entries := seq(|order|, j requires 0 <= j < |order| =>
        StatusEntry(order[j], statusCounts[order[j]], Percent(statusCounts[order[j]], total)));
    }
  }

  /** Sum of `StatusCount(builds, k)` over the keys `keys`. */
  function CountSum(builds: seq<BuildInfo>, keys: seq<string>): nat
  {
    if keys == [] then 0
    else CountSum(builds, keys[..|keys| - 1]) + StatusCount(builds, keys[|keys| - 1])
  }

  /** Adding a build raises the sum over distinct keys by one exactly when
      its key is among them. */
  lemma {:induction false} CountSumStep(pre: seq<BuildInfo>, b: BuildInfo, keys: seq<string>)
    requires Distinct(keys)
    ensures CountSum(pre + [b], keys) == CountSum(pre, keys) + (if StatusKey(b) in keys then 1 else 0)
  {
    if keys != [] {
      var m := |keys| - 1;
      assert Distinct(keys[..m]);
      CountSumStep(pre, b, keys[..m]);
      StatusOfOneMore(pre, b);
      assert keys == keys[..m] + [keys[m]];
    }
  }

  /** Every build is counted exactly once: the counts over the distinct keys
      add up to the number of builds. */
  lemma {:induction false} CountsSumToTotal(builds: seq<BuildInfo>)
    ensures CountSum(builds, StatusKeys(builds)) == |builds|
  {
    if builds != [] {
      var n := |builds| - 1;
      var pre := builds[..n];
      var b := builds[n];
      assert builds == pre + [b];
      CountsSumToTotal(pre);
      var keys := StatusKeys(pre);
      StatusKeysMembers(pre);
      CountSumStep(pre, b, keys);
      StatusOfOneMore(pre, b);
      if StatusKey(b) !in keys {
        var keys' := keys + [StatusKey(b)];
        assert keys'[..|keys|] == keys;
        StatusCountPositive(pre, StatusKey(b));
      }
    }
  }

  /** Sum of the `count` fields of the entries. */
  function EntryCountSum(entries: seq<StatusEntry>): nat
  {
    if entries == [] then 0
    else EntryCountSum(entries[..|entries| - 1]) + entries[|entries| - 1].count
  }

  lemma {:induction false} EntryCountSumIsCountSum(builds: seq<BuildInfo>, m: nat)
    requires builds != []
    requires m <= |StatusKeys(builds)|
    ensures EntryCountSum(StatusDistribution(builds)[..m]) == CountSum(builds, StatusKeys(builds)[..m])
  {
    if m > 0 {
      var entries := StatusDistribution(builds);
      var keys := StatusKeys(builds);
      EntryCountSumIsCountSum(builds, m - 1);
      assert entries[..m][..m - 1] == entries[..m - 1];
      assert keys[..m][..m - 1] == keys[..m - 1];
      assert entries[..m][m - 1].count == StatusCount(builds, keys[..m][m - 1]);
    }
  }

  /** Status keys of a prefix of the history are a prefix of the status keys
      of the whole history: keys are listed in order of first occurrence. */
  lemma {:induction false} StatusKeysFirstOccurrence(builds: seq<BuildInfo>, p: nat)
    requires p <= |builds|
    ensures StatusKeys(builds[..p]) <= StatusKeys(builds)
  {
    if p < |builds| {
      var n := |builds| - 1;
      assert builds[..n][..p] == builds[..p];
      StatusKeysFirstOccurrence(builds[..n], p);
    } else {
      assert builds[..p] == builds;
    }
  }

  /** The entries have distinct statuses, and every build's key has an entry. */
  lemma StatusEntriesCoverBuilds(builds: seq<BuildInfo>)
    ensures var entries := StatusDistribution(builds);
      && (forall i, j :: 0 <= i < j < |entries| ==> entries[i].status != entries[j].status)
      && (forall i :: 0 <= i < |builds| ==>
            exists j :: 0 <= j < |entries| && entries[j].status == StatusKey(builds[i]))
  {
    if builds != [] {
      var entries := StatusDistribution(builds);
      var keys := StatusKeys(builds);
      StatusKeysMembers(builds);
      forall i | 0 <= i < |builds|
        ensures exists j :: 0 <= j < |entries| && entries[j].status == StatusKey(builds[i])
      {
        assert IsFiledUnder(builds, StatusKey(builds[i]));
        var j :| 0 <= j < |keys| && keys[j] == StatusKey(builds[i]);
        assert entries[j].status == StatusKey(builds[i]);
      }
    }
  }

  /** Every entry has a positive count, its key's count, and a percentage in 0..100. */
  lemma StatusEntriesCounts(builds: seq<BuildInfo>)
    ensures var entries := StatusDistribution(builds);
      forall j :: 0 <= j < |entries| ==>
        entries[j].count == StatusCount(builds, entries[j].status) > 0
        && 0 <= entries[j].percentage <= 100
  {
    var entries := StatusDistribution(builds);
    forall j | 0 <= j < |entries|
      ensures entries[j].count == StatusCount(builds, entries[j].status) > 0
    {
      StatusCountPositive(builds, StatusKeys(builds)[j]);
    }
  }

  /** What getStatusDistribution promises: distinct statuses, each build
      counted once under its own key, counts adding up to the number of
      builds, percentages within 0..100, and nothing for no builds. */
  lemma StatusDistributionProperties(builds: seq<BuildInfo>)
    ensures var entries := StatusDistribution(builds);
      && (builds == [] <==> entries == [])
      && (forall i, j :: 0 <= i < j < |entries| ==> entries[i].status != entries[j].status)
      && (forall i :: 0 <= i < |builds| ==>
            exists j :: 0 <= j < |entries| && entries[j].status == StatusKey(builds[i]))
      && (forall j :: 0 <= j < |entries| ==>
            entries[j].count == StatusCount(builds, entries[j].status) > 0
            && 0 <= entries[j].percentage <= 100)
      && EntryCountSum(entries) == |builds|
      && (builds != [] ==> 200 - |entries| <= 2 * PercentSum(entries) <= 200 + |entries|)
  {
    StatusEntriesCoverBuilds(builds);
    StatusEntriesCounts(builds);
    StatusEntriesSumToTotal(builds);
    if builds != [] {
      PercentagesNearHundred(builds);
    }
  }

  /** The entries' counts add up to the number of builds. */
  lemma StatusEntriesSumToTotal(builds: seq<BuildInfo>)
    ensures EntryCountSum(StatusDistribution(builds)) == |builds|
  {
    if builds != [] {
      var entries := StatusDistribution(builds);
      var keys := StatusKeys(builds);
      CountsSumToTotal(builds);
      EntryCountSumIsCountSum(builds, |keys|);
      assert entries[..|keys|] == entries;
      assert keys[..|keys|] == keys;
    }
  }

  /** Sum of the `percentage` fields of the entries. */
  function PercentSum(entries: seq<StatusEntry>): int
  {
    if entries == [] then 0
    else PercentSum(entries[..|entries| - 1]) + entries[|entries| - 1].percentage
  }

  /** Every percentage is its entry's count as a share of `total`, rounded
      (the two bounds of RoundDiv), stated times `2 * total`. */
  ghost predicate RoundedShares(entries: seq<StatusEntry>, total: int)
  {
    forall j :: 0 <= j < |entries| ==>
      2 * total * entries[j].percentage <= 200 * entries[j].count + total < 2 * total * entries[j].percentage + 2 * total
  }

  /** Each rounded share is within half a percent of the exact one, so the
      rounding errors of n entries add up to at most n/2 percent. Stated
      times `2 * total` to stay in integers. */
  lemma {:induction false} RoundedSharesSum(entries: seq<StatusEntry>, total: int)
    requires total > 0 && RoundedShares(entries, total)
    ensures 200 * EntryCountSum(entries) - |entries| * total <= 2 * total * PercentSum(entries)
    ensures 2 * total * PercentSum(entries) <= 200 * EntryCountSum(entries) + |entries| * total
  {
    if entries != [] {
      var m := |entries| - 1;
      assert RoundedShares(entries[..m], total);
      RoundedSharesSum(entries[..m], total);
      assert 2 * total * PercentSum(entries) == 2 * total * PercentSum(entries[..m]) + 2 * total * entries[m].percentage;
      assert |entries| * total == m * total + total;
    }
  }

  /** Every entry's percentage is its count's share of the history, rounded. */
  lemma EntryPercentagesRounded(builds: seq<BuildInfo>)
    requires builds != []
    ensures RoundedShares(StatusDistribution(builds), |builds|)
  {
    var entries := StatusDistribution(builds);
    forall j | 0 <= j < |entries|
      ensures 2 * |builds| * entries[j].percentage <= 200 * entries[j].count + |builds|
    {
      assert entries[j].percentage == RoundDiv(100 * entries[j].count, |builds|);
    }
  }

  /** Dividing the summed bounds by the (positive) number of builds. */
  lemma DivideBounds(total: int, counted: int, n: int, p: int)
    requires total > 0 && counted == total
    requires 200 * counted - n * total <= 2 * total * p <= 200 * counted + n * total
    ensures 200 - n <= 2 * p <= 200 + n
  {
    assert total * (2 * p) == 2 * total * p;
    if 2 * p > 200 + n {
      MulStrictMonotone(total, 200 + n, 2 * p);
    } else if 2 * p < 200 - n {
      MulStrictMonotone(total, 2 * p, 200 - n);
    }
  }

  /** The percentages of a non-empty history add up to 100, give or take
      half a percent per distinct status. */
  lemma PercentagesNearHundred(builds: seq<BuildInfo>)
    requires builds != []
    ensures var entries := StatusDistribution(builds);
      200 - |entries| <= 2 * PercentSum(entries) <= 200 + |entries|
  {
    var entries := StatusDistribution(builds);
    EntryPercentagesRounded(builds);
    RoundedSharesSum(entries, |builds|);
    StatusEntriesSumToTotal(builds);
    DivideBounds(|builds|, EntryCountSum(entries), |entries|, PercentSum(entries));
  }

  // ---------------------------------------------------------------------
  // getBuildDurationTrend
  // ---------------------------------------------------------------------

  datatype DurationPoint = DurationPoint(buildNumber: int, duration: int)

  /** `builds.map(b => ({buildNumber: b.number, duration: Math.round(b.duration / 1000)}))`. */
  function DurationPoints(builds: seq<BuildInfo>): (points: seq<DurationPoint>)
    ensures |points| == |builds|
    ensures forall i :: 0 <= i < |builds| ==>
              points[i] == DurationPoint(builds[i].number, RoundDiv(builds[i].duration, 1000))
  {
    seq(|builds|, i requires 0 <= i < |builds| =>
      DurationPoint(builds[i].number, RoundDiv(builds[i].duration, 1000)))
  }

  /** `Array.prototype.reverse`. */
  function Reverse(points: seq<DurationPoint>): (reversed: seq<DurationPoint>)
    ensures |reversed| == |points|
  {
    if points == [] then [] else Reverse(points[1..]) + [points[0]]
  }

  lemma {:induction false} ReverseAt(points: seq<DurationPoint>, k: nat)
    requires k < |points|
    ensures |Reverse(points)| == |points| && Reverse(points)[k] == points[|points| - 1 - k]
  {
    if |points| > 1 {
      ReverseAt(points[1..], if k < |points| - 1 then k else 0);
    }
  }

  /** `getBuildDurationTrend`, given the fetched history (newest first):
      the builds oldest first, each with its duration in whole seconds. */
  function GetBuildDurationTrend(builds: seq<BuildInfo>): (trend: seq<DurationPoint>)
    ensures |trend| == |builds|
  {
    Reverse(DurationPoints(builds))
  }

  /** The trend has one point per build, in reverse fetch order; durations
      are the rounded seconds, non-negative when the durations are. */
  lemma DurationTrendIsReversed(builds: seq<BuildInfo>)
    ensures var trend := GetBuildDurationTrend(builds);
      && |trend| == |builds|
      && (forall i :: 0 <= i < |trend| ==>
            && trend[i].buildNumber == builds[|builds| - 1 - i].number
            && trend[i].duration == RoundDiv(builds[|builds| - 1 - i].duration, 1000)
            && (builds[|builds| - 1 - i].duration >= 0 ==> trend[i].duration >= 0))
  {
    var points := DurationPoints(builds);
    forall i | 0 <= i < |builds|
      ensures GetBuildDurationTrend(builds)[i] == points[|builds| - 1 - i]
      ensures builds[|builds| - 1 - i].duration >= 0 ==> GetBuildDurationTrend(builds)[i].duration >= 0
    {
      ReverseAt(points, i);
      var d := builds[|builds| - 1 - i].duration;
      if d >= 0 {
        RoundDivUnique(0, 1000, 0);
        RoundDivMonotone(0, d, 1000);
      }
    }
  }

  // ---------------------------------------------------------------------
  // getDashboardOverview
  // ---------------------------------------------------------------------

  /** Jobs that have a last build (`if (job.lastBuild)`). */
  function CountWithLastBuild(jobs: seq<JenkinsJob>): (n: nat)
    ensures n <= |jobs|
  {
    if jobs == [] then 0
    else CountWithLastBuild(jobs[..|jobs| - 1]) + (if jobs[|jobs| - 1].lastBuild.Some? then 1 else 0)
  }

  /** Jobs whose last build has result `r` (`job.lastBuild.result === r`). */
  function CountLastResult(jobs: seq<JenkinsJob>, r: string): (n: nat)
    ensures n <= CountWithLastBuild(jobs)
  {
    if jobs == [] then 0
    else
      var last := jobs[|jobs| - 1].lastBuild;
      CountLastResult(jobs[..|jobs| - 1], r) + (if last.Some? && HasResult(last.value, r) then 1 else 0)
  }

  /** Jobs whose last build is running (`job.lastBuild?.building === true`). */
  function CountBuilding(jobs: seq<JenkinsJob>): (n: nat)
    ensures n <= CountWithLastBuild(jobs)
  {
    if jobs == [] then 0
    else
      var last := jobs[|jobs| - 1].lastBuild;
      CountBuilding(jobs[..|jobs| - 1]) + (if last.Some? && last.value.building then 1 else 0)
  }

  /** Only jobs with a last build are counted as running, successful or failed,
      and a last build is never both successful and failed. */
  lemma {:induction false} DashboardCountsBounded(jobs: seq<JenkinsJob>)
    ensures CountBuilding(jobs) <= CountWithLastBuild(jobs)
    ensures CountLastResult(jobs, "SUCCESS") + CountLastResult(jobs, "FAILURE") <= CountWithLastBuild(jobs)
  {
    if jobs != [] {
      DashboardCountsBounded(jobs[..|jobs| - 1]);
    }
  }

  datatype DashboardOverview = DashboardOverview(
    totalJobs: nat,
    totalBuilds: nat,
    successRate: int,
    activeBuilds: nat,
    recentFailures: nat)

  /** `getDashboardOverview`, given the fetched job list: a rollup of each
      job's last build only. */
  method GetDashboardOverview(jobs: seq<JenkinsJob>) returns (overview: DashboardOverview)
    ensures overview.totalJobs == |jobs|
    ensures overview.totalBuilds == CountWithLastBuild(jobs)
    ensures overview.activeBuilds == CountBuilding(jobs)
    ensures overview.recentFailures == CountLastResult(jobs, "FAILURE")
    ensures overview.successRate == RateOrZero(CountLastResult(jobs, "SUCCESS"), overview.totalBuilds)
    ensures overview.activeBuilds <= overview.totalBuilds <= overview.totalJobs
    ensures CountLastResult(jobs, "SUCCESS") + overview.recentFailures <= overview.totalBuilds
    ensures 0 <= overview.successRate <= 100
  {
    var totalJobs := |jobs|;
    var activeBuilds := CountBuilding(jobs);
    var totalBuilds, totalSuccess, recentFailures := 0, 0, 0;
    for i := 0 to |jobs|
      invariant totalBuilds == CountWithLastBuild(jobs[..i])
      invariant totalSuccess == CountLastResult(jobs[..i], "SUCCESS")
      invariant recentFailures == CountLastResult(jobs[..i], "FAILURE")
    {
      assert jobs[..i + 1][..i] == jobs[..i];
      match jobs[i].lastBuild {
        case Some(last) =>
          totalBuilds := totalBuilds + 1;
          if last.result == Some("SUCCESS") {
            totalSuccess := totalSuccess + 1;
          } else if last.result == Some("FAILURE") {
            recentFailures := recentFailures + 1;
          }
        case None =>
      }
    }
    assert jobs[..|jobs|] == jobs;
    DashboardCountsBounded(jobs);
    var successRate := RateOrZero(totalSuccess, totalBuilds);
    overview := DashboardOverview(totalJobs, totalBuilds, successRate, activeBuilds, recentFailures);
  }

  /** Two jobs: one whose last build succeeded, one whose last build failed
      and is still marked as building. */
  lemma DashboardOfTwoJobs()
    ensures var jobs := [
        JenkinsJob("a", "", "blue", None, None, true,
                   Some(BuildInfo(1, "", Some("SUCCESS"), 0, 0, false)), None, None),
        JenkinsJob("b", "", "red_anime", None, None, true,
                   Some(BuildInfo(1, "", Some("FAILURE"), 0, 0, true)), None, None)];
      && CountWithLastBuild(jobs) == 2
      && CountBuilding(jobs) == 1
      && CountLastResult(jobs, "FAILURE") == 1
      && RateOrZero(CountLastResult(jobs, "SUCCESS"), CountWithLastBuild(jobs)) == 50
  {
    var jobs := [
        JenkinsJob("a", "", "blue", None, None, true,
                   Some(BuildInfo(1, "", Some("SUCCESS"), 0, 0, false)), None, None),
        JenkinsJob("b", "", "red_anime", None, None, true,
                   Some(BuildInfo(1, "", Some("FAILURE"), 0, 0, true)), None, None)];
    assert jobs[..1][..0] == [];
    RoundDivUnique(100, 2, 50);
  }

  // ---------------------------------------------------------------------
  // getAllJobsStatistics
  // ---------------------------------------------------------------------

  datatype JobStatistics = JobStatistics(
    jobName: string,
    totalBuilds: nat,
    successRate: int,
    averageDuration: int,
    lastBuildTime: int)

  /** `job.lastBuild?.timestamp || 0`. */
  function LastBuildTime(job: JenkinsJob): (t: int)
    ensures job.lastBuild.None? ==> t == 0
    ensures job.lastBuild.Some? ==> t == job.lastBuild.value.timestamp
  {
    match job.lastBuild
    case Some(b) => if b.timestamp != 0 then b.timestamp else 0
    case None => 0
  }

  /** The entry of one job: statistics of its fetched history, or the
      all-zero entry when the fetch failed. */
  function JobEntry(job: JenkinsJob, history: Option<seq<BuildInfo>>): (e: JobStatistics)
    ensures e.jobName == job.name
    ensures history.None? ==> e == JobStatistics(job.name, 0, 0, 0, 0)
    ensures history.Some? ==>
              && e.totalBuilds == |history.value|
              && e.successRate == RateOrZero(CountResult(history.value, "SUCCESS"), |history.value|)
              && 0 <= e.successRate <= 100
              && e.averageDuration == CalculateAverageDuration(history.value)
              && e.lastBuildTime == LastBuildTime(job)
  {
    match history
    case Some(builds) =>
      var stats := CalculateBuildStatistics(builds);
      JobStatistics(job.name, stats.totalBuilds, stats.successRate, stats.averageDuration, LastBuildTime(job))
    case None =>
      JobStatistics(job.name, 0, 0, 0, 0)
  }

  /** `getAllJobsStatistics`, given each job's fetched history (`None` where
      that fetch failed): one entry per job, in job order. */
  function GetAllJobsStatistics(jobs: seq<JenkinsJob>, histories: seq<Option<seq<BuildInfo>>>): (entries: seq<JobStatistics>)
    requires |histories| == |jobs|
    ensures |entries| == |jobs|
    ensures forall i :: 0 <= i < |jobs| ==> entries[i].jobName == jobs[i].name
    ensures forall i :: 0 <= i < |jobs| ==> entries[i] == JobEntry(jobs[i], histories[i])
  {
    seq(|jobs|, i requires 0 <= i < |jobs| => JobEntry(jobs[i], histories[i]))
  }

  /** A failed fetch for job `j` changes no other job's entry. */
  lemma FetchFailureIsIsolated(jobs: seq<JenkinsJob>, histories: seq<Option<seq<BuildInfo>>>, j: nat)
    requires |histories| == |jobs| && j < |jobs|
    ensures var failed := histories[j := None];
      && GetAllJobsStatistics(jobs, failed)[j] == JobStatistics(jobs[j].name, 0, 0, 0, 0)
      && forall i :: 0 <= i < |jobs| && i != j ==>
           GetAllJobsStatistics(jobs, failed)[i] == GetAllJobsStatistics(jobs, histories)[i]
  {
  }
}
