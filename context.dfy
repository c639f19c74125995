/** The inputs a release command receives: the changes being released and the
    recognised configuration (user hooks and CI repository coordinates).

    A user hook is modelled by the value it returns when it is called; a hook
    that is not configured is `None` (or `false` for the hooks whose result is
    ignored). Whether a configured hook throws is decided like every other
    external call, by the run's failure set (see module Effects). */
module Context {

  datatype Option<T> = None | Some(value: T)

  /** One change of the release: its author and, when it came in through a
      pull request, that pull request's number. */
  datatype Change = Change(author: string, pullRequestNumber: Option<int>)

  /** What a `beforePrepare` / `beforeRelease` hook returned. Its type is
      `boolean | void`; only the value `false` (compared with `===`) cancels. */
  datatype GateResult = ReturnedFalse | ReturnedTrue | ReturnedNothing

  /** `config.user`: the optional lifecycle hooks. */
  datatype UserHooks = UserHooks(
    getPullRequestBranch: Option<string>,   // the branch name the hook returns
    getReleaseBranch: Option<string>,       // the branch name the hook returns
    beforePrepare: Option<GateResult>,
    afterPrepare: bool,                     // configured or not; result ignored
    beforeRelease: Option<GateResult>,
    afterRelease: bool,                     // configured or not; result ignored
    getReleaseDescription: Option<string>)  // the description the hook returns

  /** `config.ci`: the forge repository; either part may be unset. */
  datatype CiConfig = CiConfig(repoOwner: Option<string>, repoName: Option<string>)

  /** JavaScript truthiness of an optional string: `undefined` and `""` are falsy. */
  predicate IsSet(s: Option<string>)
  {
    s.Some? && s.value != ""
  }

  /** JavaScript truthiness of an optional pull-request number: `undefined` and `0` are falsy. */
  predicate HasNumber(n: Option<int>)
  {
    n.Some? && n.value != 0
  }

  /** The negation of `!config.ci.repoOwner || !config.ci.repoName`. */
  predicate HasRepository(ci: CiConfig)
  {
    IsSet(ci.repoOwner) && IsSet(ci.repoName)
  }
}
