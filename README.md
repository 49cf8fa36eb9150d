# Jenkins custom platform: statistics, credentials, auth gates and status colours

This project is a Dafny model of the computational core of a Jenkins
dashboard. The dashboard has an Express backend and a React frontend. The
model covers four parts:

- **Statistics engine** (`Statistics`, statistics.dfy). This is the backend's
  `StatisticsService` with each upstream fetch replaced by its result.
  - Per-result counts, success rate and average duration. `Math.round` is
    modelled exactly as round-half-up `(2a + b) / (2b)`.
  - Bucketing of builds into consecutive 24-hour half-open intervals. This
    is an imperative counting-down loop proved against `DayGroups`.
  - The status histogram, in first-occurrence order. This is a loop over a
    map plus an insertion-order sequence, proved against
    `StatusDistribution`.
  - The reversed duration trend.
  - The dashboard rollup over last builds only. This is a counter loop.
  - The all-jobs summary, where one job's failed fetch yields an all-zero
    entry.
- **Credential store** (`Auth`, auth_service.dfy). `AuthService` is a class
  with two fields:
  - the `users` map from username to stored record;
  - the `order` sequence of keys, which is the JavaScript `Map`'s iteration
    order.

  Seeding, `login`, `register`, `getUserById` and `getUserByUsername` are
  modelled over those fields. bcryptjs and jsonwebtoken are kept
  uninterpreted as function-valued fields (`Bcrypt`, `Jwt`). Each has a
  `Sound()` predicate stating the one law the code relies on.
- **Auth middleware** (`AuthMiddleware`, auth_middleware.dfy).
  `authenticate`, `authorize` and `optionalAuth` are methods over a request
  object. Each may set `req.user` and returns an `Outcome`: either an error
  response with its status and body, or `CallNext`.
- **Status vocabulary** (`BuildStatusView`, build_status.dfy). This is the
  frontend's `colorToStatus` classifier and its two lookup tables, for
  colours and labels.

`Wrappers` (wrappers.dfy) holds `Option` and `Result`. `JenkinsTypes`
(jenkins_types.dfy) holds the build and job records the statistics read.

## Model

| member | source | states |
|---|---|---|
| Statistics.RoundDiv | jenkins-platform-backend/src/services/statistics.service.ts:157 | the result is the integer r with r - 1/2 <= a/b < r + 1/2, i.e. `Math.round(a / b)` with halves rounded up |
| Statistics.Percent | jenkins-platform-backend/src/services/statistics.service.ts:157 | `Math.round(count / total * 100)` lies in 0..100 whenever 0 <= count <= total |
| Statistics.RateOrZero | jenkins-platform-backend/src/services/statistics.service.ts:157 | the success rate is 0 when there are no builds, otherwise the rounded percentage, and always within 0..100 when part <= total |
| Statistics.CountResult | jenkins-platform-backend/src/services/statistics.service.ts:152-155 | a per-result count never exceeds the number of builds |
| Statistics.CountResultIsMultiplicity | jenkins-platform-backend/src/services/statistics.service.ts:152-155 | the `filter(b => b.result === r).length` count is the multiplicity of `r` among the builds' results |
| Statistics.CategoryCountsBounded | jenkins-platform-backend/src/services/statistics.service.ts:151-155 | success + failure + unstable + aborted <= totalBuilds, with equality iff every build has one of those four results |
| Statistics.TotalDuration | jenkins-platform-backend/src/services/statistics.service.ts:177 | the reduced sum of durations is non-negative when every duration is |
| Statistics.TotalDurationBetween | jenkins-platform-backend/src/services/statistics.service.ts:177 | the sum lies between n·lo and n·hi when every duration lies in [lo, hi] |
| Statistics.CalculateAverageDuration | jenkins-platform-backend/src/services/statistics.service.ts:174-178 | an empty list averages to 0; non-negative durations give a non-negative average |
| Statistics.AverageDurationBetween | jenkins-platform-backend/src/services/statistics.service.ts:174-178 | the average, in rounded seconds, lies between the rounded seconds of the shortest and the longest bound on the durations |
| Statistics.CalculateBuildStatistics | jenkins-platform-backend/src/services/statistics.service.ts:150-169 | totalBuilds is the input length; each count is the number of builds with exactly that result; the four counts sum to at most totalBuilds; successRate is 0 for no builds, otherwise the rounded percentage in 0..100; all fields are 0 for an empty list |
| Statistics.SummaryOfThreeBuilds | jenkins-platform-backend/src/services/statistics.service.ts:150-169 | SUCCESS, FAILURE, SUCCESS lasting 10 s, 20 s and 30 s give total 3, 2 successes, 1 failure, rate 67 and average 20 s |
| Statistics.InWindow | jenkins-platform-backend/src/services/statistics.service.ts:195-197 | a day's filter has no more builds than the input |
| Statistics.InWindowMembers | jenkins-platform-backend/src/services/statistics.service.ts:195-197 | a build is in a day's list iff it is in the input and dayStart <= timestamp < dayEnd |
| Statistics.InWindowCounts | jenkins-platform-backend/src/services/statistics.service.ts:195-197 | a day's list holds each in-window build as often as the input does, and no other build |
| Statistics.InWindowKeepsOrder | jenkins-platform-backend/src/services/statistics.service.ts:195-197 | a day's list is a subsequence of the input: input order is kept |
| Statistics.InWindowIsFilter | jenkins-platform-backend/src/services/statistics.service.ts:195-197 | a day's list keeps each in-window build as often as the input has it, drops every other build, and preserves input order |
| Statistics.DayGroups | jenkins-platform-backend/src/services/statistics.service.ts:184-203 | there are exactly max(days, 0) groups |
| Statistics.GroupBuildsByDay | jenkins-platform-backend/src/services/statistics.service.ts:184-203 | the counting-down loop that pushes one group per day yields exactly `DayGroups` |
| Statistics.DayGroupsAreConsecutiveDays | jenkins-platform-backend/src/services/statistics.service.ts:190-193 | group k is labelled with the day starting at now - (days-1-k)·86400000; consecutive groups start one day apart; the last group starts at `now` |
| Statistics.DayGroupsDisjoint | jenkins-platform-backend/src/services/statistics.service.ts:191-197 | no build lies in two different day groups |
| Statistics.DayStartInSpan | jenkins-platform-backend/src/services/statistics.service.ts:190-192 | bucket k starts k days after the first bucket, and lies inside [now - (days-1)·86400000, now + 86400000) |
| Statistics.DayOfTime | jenkins-platform-backend/src/services/statistics.service.ts:190-197 | every time in that span falls inside one of the `days` buckets |
| Statistics.DayGroupsCover | jenkins-platform-backend/src/services/statistics.service.ts:190-197 | an input build lies in some group iff now - (days-1)·86400000 <= timestamp < now + 86400000 |
| Statistics.DayStatistics | jenkins-platform-backend/src/services/statistics.service.ts:96-101 | a day's point keeps the group's date and counts SUCCESS and FAILURE builds, whose sum is at most the group size; an empty day reports 0, 0 and average 0 |
| Statistics.GetTimeSeriesData | jenkins-platform-backend/src/services/statistics.service.ts:88-101 | one point per day, oldest first; point k holds the date, success count, failure count and average duration of the builds with timestamps in day k's window |
| Statistics.StatusKey | jenkins-platform-backend/src/services/statistics.service.ts:116 | a build is filed under a non-empty key: its result, or 'UNKNOWN' when the result is missing or empty |
| Statistics.StatusKeys | jenkins-platform-backend/src/services/statistics.service.ts:114-121 | the histogram has at most as many keys as there are builds |
| Statistics.StatusKeysMembers | jenkins-platform-backend/src/services/statistics.service.ts:114-121 | the histogram's keys are distinct, and a key is present iff some build is filed under it |
| Statistics.StatusCount | jenkins-platform-backend/src/services/statistics.service.ts:115-118 | a key's count is at most the number of builds |
| Statistics.StatusCountPositive | jenkins-platform-backend/src/services/statistics.service.ts:115-118 | a key's count is 0 iff the key is absent from the histogram |
| Statistics.StatusOfOneMore | jenkins-platform-backend/src/services/statistics.service.ts:115-118 | one more build appends its key when the key is new, and raises only its own key's count, by one |
| Statistics.TalliesStep | jenkins-platform-backend/src/services/statistics.service.ts:116-117 | bumping `(statusCounts[status] \|\| 0) + 1` keeps the record equal to the tallies of the builds seen so far, with keys in insertion order |
| Statistics.CountByStatus | jenkins-platform-backend/src/services/statistics.service.ts:114-118 | after the `forEach`, the record's keys are the builds' status keys in first-occurrence order, and each key maps to the number of builds filed under it |
| Statistics.StatusDistribution | jenkins-platform-backend/src/services/statistics.service.ts:114-125 | one entry per key of the histogram |
| Statistics.GetStatusDistribution | jenkins-platform-backend/src/services/statistics.service.ts:110-125 | counting, then mapping the record's entries to `{status, count, percentage}`, yields exactly `StatusDistribution` |
| Statistics.CountsSumToTotal | jenkins-platform-backend/src/services/statistics.service.ts:115-120 | the counts over all keys add up to the number of builds: each build is counted exactly once |
| Statistics.EntryCountSumIsCountSum | jenkins-platform-backend/src/services/statistics.service.ts:121-125 | the entries' counts, over any prefix of the key list, add up to the histogram's counts for those keys |
| Statistics.StatusKeysFirstOccurrence | jenkins-platform-backend/src/services/statistics.service.ts:115-121 | the keys of a prefix of the builds are a prefix of the keys: keys are listed in first-occurrence order |
| Statistics.StatusEntriesCoverBuilds | jenkins-platform-backend/src/services/statistics.service.ts:114-125 | the entries' statuses are distinct, and every build's key has an entry |
| Statistics.StatusEntriesCounts | jenkins-platform-backend/src/services/statistics.service.ts:121-125 | every entry's count is positive and equals its key's count; every percentage lies in 0..100 |
| Statistics.StatusEntriesSumToTotal | jenkins-platform-backend/src/services/statistics.service.ts:114-125 | the entries' counts add up to the number of builds |
| Statistics.StatusDistributionProperties | jenkins-platform-backend/src/services/statistics.service.ts:114-125 | the entries are empty iff there are no builds; statuses are distinct; every build's key has an entry; every count is positive and equals that key's count; percentages lie in 0..100; the counts sum to the number of builds; for a non-empty history the percentages sum to 100 within half a percent per distinct status |
| Statistics.RoundedSharesSum | jenkins-platform-backend/src/services/statistics.service.ts:121-125 | if each percentage is its count's share of the total rounded to the nearest whole number, the summed percentages are within half a percent per entry of the summed exact shares |
| Statistics.EntryPercentagesRounded | jenkins-platform-backend/src/services/statistics.service.ts:124 | each entry's percentage is the rounded share `count / total * 100` of its count |
| Statistics.PercentagesNearHundred | jenkins-platform-backend/src/services/statistics.service.ts:120-125 | for a non-empty history the percentages sum to 100, off by at most half a percent per distinct status |
| Statistics.DurationPoints | jenkins-platform-backend/src/services/statistics.service.ts:138-140 | one point per build, with its number and its duration in rounded seconds |
| Statistics.ReverseAt | jenkins-platform-backend/src/services/statistics.service.ts:141 | `reverse()` keeps the length and puts element n-1-k at position k |
| Statistics.Reverse | jenkins-platform-backend/src/services/statistics.service.ts:141 | `.reverse()` keeps the length; ReverseAt states that position i holds the element from position n-1-i |
| Statistics.GetBuildDurationTrend | jenkins-platform-backend/src/services/statistics.service.ts:134-141 | the trend has one point per build; DurationTrendIsReversed states what each point is |
| Statistics.DurationTrendIsReversed | jenkins-platform-backend/src/services/statistics.service.ts:134-141 | the trend has one point per build; point i is build n-1-i with its duration in rounded seconds, non-negative when that duration is |
| Statistics.CountBuilding | jenkins-platform-backend/src/services/statistics.service.ts:220-222 | the running jobs (`lastBuild?.building === true`) are among the jobs with a last build |
| Statistics.CountLastResult | jenkins-platform-backend/src/services/statistics.service.ts:232-236 | the jobs whose last build has a given result are among the jobs with a last build |
| Statistics.CountWithLastBuild | jenkins-platform-backend/src/services/statistics.service.ts:229-231 | the number of jobs with a last build is at most the number of jobs |
| Statistics.DashboardCountsBounded | jenkins-platform-backend/src/services/statistics.service.ts:220-238 | building jobs, and successes plus failures, are each at most the number of jobs with a last build |
| Statistics.GetDashboardOverview | jenkins-platform-backend/src/services/statistics.service.ts:208-252 | totalJobs = number of jobs; totalBuilds counts jobs having a last build; activeBuilds counts those whose last build is building; recentFailures counts last builds with result FAILURE; successRate is 0 with no last builds, else the rounded percentage in 0..100; activeBuilds <= totalBuilds <= totalJobs and successes + failures <= totalBuilds |
| Statistics.DashboardOfTwoJobs | jenkins-platform-backend/src/services/statistics.service.ts:216-240 | a succeeded job plus a failed job still building give 2 last builds, 1 active, 1 failure and rate 50 |
| Statistics.LastBuildTime | jenkins-platform-backend/src/services/statistics.service.ts:66 | the last build's timestamp, or 0 when there is no last build |
| Statistics.JobEntry | jenkins-platform-backend/src/services/statistics.service.ts:56-76 | the entry keeps the job's name; a failed fetch gives an all-zero entry; otherwise it holds the history's size, success rate in 0..100, average duration and the job's last build time |
| Statistics.GetAllJobsStatistics | jenkins-platform-backend/src/services/statistics.service.ts:52-83 | one entry per job, in job order, with jobName preserved, each computed from that job's own fetch |
| Statistics.FetchFailureIsIsolated | jenkins-platform-backend/src/services/statistics.service.ts:56-79 | making one job's fetch fail zeroes that job's entry and leaves every other entry unchanged |
| Auth.RoleName | jenkins-platform-backend/src/services/auth.service.ts:32-40 | the role names 'admin' and 'user' name exactly the two roles |
| Auth.EnvOr | jenkins-platform-backend/src/services/auth.service.ts:13-14 | a set, non-empty environment value wins; an unset or empty one falls back to the default |
| Auth.DecimalString | jenkins-platform-backend/src/services/auth.service.ts:121 | `Date.now().toString()` is a non-empty string of decimal digits with no leading zero |
| Auth.DecimalRoundTrip | jenkins-platform-backend/src/services/auth.service.ts:121 | reading the id string back gives the clock value, so different clock readings give different ids |
| Auth.AuthService.constructor | jenkins-platform-backend/src/services/auth.service.ts:12-19 | the secret defaults to 'your-secret-key' and the expiry to '7d'; the store holds exactly the two default accounts, in the order admin, user |
| Auth.AuthService.SetUser | jenkins-platform-backend/src/services/auth.service.ts:128 | `Map.set` stores the record under its key; a new key goes to the end of the iteration order and an existing key keeps its place; the store invariant is kept |
| Auth.DefaultUsers | jenkins-platform-backend/src/services/auth.service.ts:28-42 | the seeded store holds exactly 'admin' and 'user', each record under its own username, with distinct ids, one admin and one user |
| Auth.AuthService.InitDefaultUsers | jenkins-platform-backend/src/services/auth.service.ts:24-43 | the store holds exactly 'admin' (id '1', role admin, hash of 'admin123') and 'user' (id '2', role user, hash of 'user123') |
| Auth.AuthService.VerifyToken | jenkins-platform-backend/src/services/auth.service.ts:94-101 | the decoded claims when jwt verification succeeds under the service's secret, otherwise the error 'Invalid token' |
| Auth.WithoutPassword | jenkins-platform-backend/src/services/auth.service.ts:64 | dropping the password keeps the id, username, email and role of the stored record |
| Auth.AuthService.GenerateToken | jenkins-platform-backend/src/services/auth.service.ts:77-89 | the token verifies, under the service's secret, to exactly the user's {id, username, role} |
| Auth.AuthService.VerifyGeneratedToken | jenkins-platform-backend/src/services/auth.service.ts:77-101 | a token from `generateToken` verifies to exactly the user's {id, username, role} |
| Auth.AuthService.Login | jenkins-platform-backend/src/services/auth.service.ts:48-72 | fails with 'Invalid credentials' iff the username is unknown or the password does not match its hash; on success returns the stored record without its password, the configured expiry, and a token signed over {id, username, role}; the store is only read |
| Auth.AuthService.LoginTokenVerifies | jenkins-platform-backend/src/services/auth.service.ts:63-71 | the token of a successful login verifies to the logged-in user's claims |
| Auth.AuthService.StoredPasswordLogsIn | jenkins-platform-backend/src/services/auth.service.ts:52-71 | a record whose stored hash is the hash of `password` admits a login with that password |
| Auth.AuthService.SeededAccountsLogIn | jenkins-platform-backend/src/services/auth.service.ts:24-72 | after seeding, admin/admin123 and user/user123 log in with their ids and roles, and their tokens verify to their claims |
| Auth.AuthService.Register | jenkins-platform-backend/src/services/auth.service.ts:106-132 | a taken username fails with 'Username already exists' and changes nothing; otherwise exactly one record is added under the username, with id the clock reading, role user and the hash of the password; every other record is unchanged; the new user is returned without its password |
| Auth.AuthService.GetUserById | jenkins-platform-backend/src/services/auth.service.ts:137-145 | null iff no record has the id; otherwise the first record, in insertion order, with that id, without its password; the store is not changed |
| Auth.AuthService.GetUserByUsername | jenkins-platform-backend/src/services/auth.service.ts:150-157 | null iff the username is not stored; otherwise that record without its password |
| AuthMiddleware.BearerToken | jenkins-platform-backend/src/middleware/auth.middleware.ts:15-27 | there is a token iff the header is present and starts with 'Bearer '; the header is then 'Bearer ' followed by the token |
| AuthMiddleware.BearerTokenRoundTrip | jenkins-platform-backend/src/middleware/auth.middleware.ts:27 | `substring(7)` of 'Bearer ' + token is the token |
| AuthMiddleware.Authenticate | jenkins-platform-backend/src/middleware/auth.middleware.ts:8-43 | no bearer header gives 401 'No token provided'; a token that does not verify gives 401 'Invalid or expired token'; in both cases req.user is unchanged; otherwise req.user becomes the decoded claims and next is called |
| AuthMiddleware.Authorize | jenkins-platform-backend/src/middleware/auth.middleware.ts:48-70 | no user gives 401 'User not authenticated'; a role not listed gives 403 'Insufficient permissions'; next is called iff a user is attached and its role is listed; the request is not changed |
| AuthMiddleware.OptionalAuth | jenkins-platform-backend/src/middleware/auth.middleware.ts:75-94 | always calls next and never responds; req.user becomes the decoded claims iff a bearer token verifies, and is otherwise unchanged |
| AuthMiddleware.LoginThenAuthenticate | jenkins-platform-backend/src/middleware/auth.middleware.ts:27-35 | the token from a successful login, sent as a bearer header, passes `authenticate` |
| BuildStatusView.OccursShift | jenkins-platform-frontend/src/types/index.ts:90 | dropping the first character of the colour moves every occurrence of a substring one position left |
| BuildStatusView.ContainsIffOccurs | jenkins-platform-frontend/src/types/index.ts:90 | `includes` holds iff the substring occurs at some position |
| BuildStatusView.MissingFirstCharNotContained | jenkins-platform-frontend/src/types/index.ts:90 | a string that lacks the first character of `sub` does not include `sub` |
| BuildStatusView.Contains | jenkins-platform-frontend/src/types/index.ts:90 | `includes` holds when `sub` is a prefix, and only when `sub` is no longer than the string; ContainsIffOccurs states it exactly |
| BuildStatusView.ColorToStatus | jenkins-platform-frontend/src/types/index.ts:89-96 | the status is BUILDING iff the colour contains 'anime' |
| BuildStatusView.AnimatedColorIsBuilding | jenkins-platform-frontend/src/types/index.ts:90 | every `<base>_anime` colour is BUILDING, whatever its prefix (e.g. red_anime) |
| BuildStatusView.PrefixClassification | jenkins-platform-frontend/src/types/index.ts:91-95 | without 'anime', the prefixes blue, red, yellow and aborted give SUCCESS, FAILURE, UNSTABLE and ABORTED, and any other colour gives NOT_BUILT |
| BuildStatusView.BallColorClassifies | jenkins-platform-frontend/src/types/index.ts:89-96 | each status's ball colour classifies back to that status, so all six statuses are reachable |
| BuildStatusView.PlainColorClassifies | jenkins-platform-frontend/src/types/index.ts:91-93 | the colours blue, red and yellow classify as SUCCESS, FAILURE and UNSTABLE |
| BuildStatusView.AbortedIsNotAnimated | jenkins-platform-frontend/src/types/index.ts:90 | the colour 'aborted' does not include 'anime' |
| BuildStatusView.NotBuiltColorClassifies | jenkins-platform-frontend/src/types/index.ts:95 | the colour 'notbuilt' falls through every test to NOT_BUILT |
| BuildStatusView.GetStatusColor | jenkins-platform-frontend/src/types/index.ts:99-109 | every status gets a `#rrggbb` colour |
| BuildStatusView.StatusColorsDistinct | jenkins-platform-frontend/src/types/index.ts:99-108 | the six colours are pairwise distinct, and only NOT_BUILT's equals the '#d9d9d9' fallback |
| BuildStatusView.GetStatusText | jenkins-platform-frontend/src/types/index.ts:112-122 | every label is non-empty, hence truthy in JavaScript, so the '未知' fallback is never taken; no label equals the fallback either |
| BuildStatusView.StatusTextsDistinct | jenkins-platform-frontend/src/types/index.ts:112-120 | the six labels are pairwise distinct |

## Left out

- The upstream fetches (`jenkinsService.getBuildHistory`, `getAllJobs`) are HTTP I/O. Each statistics operation takes the fetched list as a parameter. For the all-jobs summary, a failed fetch is `None`. The per-call limits (30, 10, 100, 50, 20) only bound what the fetch returns, so they are not modelled.
- `getJobStatistics` is a fetch followed by `calculateBuildStatistics`, which is modelled. Its error wrapping is not modelled, and neither is the `Failed to …` rethrow of every service method.
- `Date.now()` is a parameter (`now`, `nowMs`). The ISO `YYYY-MM-DD` day label is an uninterpreted function `dateOf` of the day's start.
- Statistics.DayGroups: the day label `dateOf` is total in the model. In the source, `new Date(dayStart).toISOString()` (statistics.service.ts:193) throws a RangeError for a day start outside ±8.64e15 ms. With `now` in the present, that happens for `days` above roughly 100 million, so the source has no groups to give there, while the model claims max(days, 0) of them.
- Statistics.GroupBuildsByDay: the loop starts at the oldest day (statistics.service.ts:190), so in the source its first `toISOString` already throws when `days` exceeds roughly 100 million. The model, with a total `dateOf`, runs to completion.
- Statistics.GetTimeSeriesData: for `days` above roughly 100 million the source rethrows the RangeError as 'Failed to get time series data: Invalid time value' (statistics.service.ts:102-103) and answers 500. The model returns max(days, 0) points instead. `days` is not bounded by the caller: it is `parseInt(req.query.days) || 7`.
- Floating point is not modelled. `Math.round` is modelled as exact rational round-half-up. Results where a double quotient lands a hair off a .5 tie, and durations beyond 2^53, are outside the model.
- Statistics.StatusDistribution: keys are listed in first-insertion order. JavaScript lists integer-like property names of a plain object first, in numeric order, but build results are never integer-like.
- Statistics.StatusDistribution: the tally is a plain object (`{}`), so names inherited from `Object.prototype` would misbehave: `__proto__` would never be counted, and `constructor` or `toString` would start from the inherited function and get a string as their count (statistics.service.ts:114-117). The model is a map with no inherited keys. The CI server reports results from a fixed set of upper-case names, so none of these keys occurs.
- bcryptjs and jsonwebtoken are uninterpreted. This leaves out salt randomness, the cost factor 10, token expiry, and the `iat`/`exp` fields that `jwt.verify` adds to the decoded payload. `Sound()` states the only laws used.
- Auth.AuthService.constructor: the source starts `initDefaultUsers` without awaiting it, so a request arriving before the hashes finish sees an empty store. The model seeds synchronously, inside the constructor.
- Auth.AuthService.Register: each call is modelled as one atomic step. In the source the `has` check (auth.service.ts:112) and the `set` (line 128) are separated by `await bcrypt.hash` (line 117). Two concurrent registrations of the same new username can therefore both pass the check. The second `set` then replaces the first record (new id, hash and email, same place in the iteration order), and both calls report success.
- Auth.AuthService.GetUserByUsername and the other `AuthService` operations assume the store invariant `Valid()` (every key listed once in the iteration order, every record under its own username). The constructor establishes it and every method keeps it.
- AuthMiddleware.OptionalAuth: the model assumes `next()` does not throw. A throwing `next` would be caught and `next` called a second time.
- AuthMiddleware.Authenticate: the model assumes `next()` does not throw. In the source `next()` runs inside the `try` (auth.middleware.ts:35-41), so a throwing `next` would be caught and a 401 'Invalid or expired token' sent after the request had already been passed on.
- AuthMiddleware.Authorize: decoded claims are assumed to carry one of the two roles. In the source, `jwt.verify(...) as User` (auth.service.ts:96) is a cast, not a check, so a token signed with the known default secret 'your-secret-key' can carry any role string or none. `authorize` then answers 403 (auth.middleware.ts:59), because no listed role matches.
- Express request and response objects are reduced to the authorization header, `req.user` and the returned `Outcome`. Writing the JSON body is part of the outcome.
- Controllers, routes, `app.ts`, the error middleware, socket.io, and the frontend's pages, components, store and API clients are not part of this model.
