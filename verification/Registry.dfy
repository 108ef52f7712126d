/** Installations, repositories, runners and assignments: the tables that
    `control_plane/repository_policy.py` owns. */
module Registry {
  import opened Common

  type RunnerId = string
  type RepositoryId = string

  datatype GitHubRepository = GitHubRepository(installation: int, githubId: int)
  datatype Runner = Runner(deviceName: string, credential: Hash, revoked: bool)
  datatype Assignment = Assignment(repository: RepositoryId, runner: RunnerId)

  datatype Tables = Tables(
    installations: map<int, bool>,  // installation id -> revoked
    repositories: map<GitHubRepository, RepositoryId>,
    runners: map<RunnerId, Runner>,
    assignments: set<Assignment>)

  datatype DenialReason =
    | UnknownInstallation | RevokedInstallation | UnknownRepository
    | UnknownRunner | RevokedRunner | NotAssigned

  datatype Authorization = Denied(reason: DenialReason) | Granted(repository: RepositoryId)

  predicate ActiveRunner(t: Tables, runner: RunnerId) {
    runner in t.runners && !t.runners[runner].revoked
  }

  /** The `exists (...)` sub-query of the runner claim. */
  predicate Assigned(t: Tables, repo: GitHubRepository, runner: RunnerId) {
    repo in t.repositories && Assignment(t.repositories[repo], runner) in t.assignments
  }

  function AuthorizeRepository(t: Tables, repo: GitHubRepository, runner: RunnerId): (a: Authorization)
    ensures a.Granted? <==>
              && repo.installation in t.installations
              && !t.installations[repo.installation]
              && ActiveRunner(t, runner)
              && Assigned(t, repo, runner)
    ensures a == Denied(UnknownInstallation) <==> repo.installation !in t.installations
    ensures a == Denied(RevokedInstallation) <==>
              repo.installation in t.installations && t.installations[repo.installation]
    ensures repo.installation in t.installations && !t.installations[repo.installation] ==>
              && (a == Denied(UnknownRepository) <==> repo !in t.repositories)
              && (a == Denied(UnknownRunner) <==> repo in t.repositories && runner !in t.runners)
              && (a == Denied(RevokedRunner) <==>
                  repo in t.repositories && runner in t.runners && t.runners[runner].revoked)
              && (a == Denied(NotAssigned) <==>
                    && repo in t.repositories && runner in t.runners && !t.runners[runner].revoked
                    && Assignment(t.repositories[repo], runner) !in t.assignments)
  {
    if repo.installation !in t.installations then Denied(UnknownInstallation)
    else if t.installations[repo.installation] then Denied(RevokedInstallation)
    else if repo !in t.repositories then Denied(UnknownRepository)
    else if runner !in t.runners then Denied(UnknownRunner)
    else if t.runners[runner].revoked then Denied(RevokedRunner)
    else if Assignment(t.repositories[repo], runner) !in t.assignments then Denied(NotAssigned)
    else Granted(t.repositories[repo])
  }
}
