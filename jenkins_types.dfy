/** The CI server's records as the backend sees them
    (jenkins-platform-backend/src/types/index.ts). */
module JenkinsTypes {
  import opened Wrappers

  /** One build. `result` is `None` while the build runs (the server sends `null`).
      `BuildDetails` adds display name, description, actions and change set to
      these fields; the statistics never read them, so one datatype serves both. */
  datatype BuildInfo = BuildInfo(
    number: int,
    url: string,
    result: Option<string>,
    timestamp: int,   // epoch milliseconds
    duration: int,    // milliseconds
    building: bool)

  /** One job, as listed by the CI server. */
  datatype JenkinsJob = JenkinsJob(
    name: string,
    url: string,
    color: string,
    displayName: Option<string>,
    description: Option<string>,
    buildable: bool,
    lastBuild: Option<BuildInfo>,
    lastSuccessfulBuild: Option<BuildInfo>,
    lastFailedBuild: Option<BuildInfo>)

  /** `b.result === r`. */
  predicate HasResult(b: BuildInfo, r: string)
  {
    b.result == Some(r)
  }
}
