/** The `prepare` command (src/cmd/prepare.ts): bring the pull-request branch
    up to date with the release branch, prepend the new changelog section to
    CHANGELOG.md, commit and push when something is staged, then create or
    update the draft release pull request. */
module PrepareCommand {
  import opened Context
  import opened Effects

  /** Everything a `prepare` run depends on, apart from which of its calls
      throw: the command context and the answers of the external calls. */
  datatype PrepareEnv = PrepareEnv(
    nextVersion: string,
    user: UserHooks,
    ci: CiConfig,
    branches: seq<string>,     // the `all` list that git.branch() returns
    oldChangelog: string,      // CHANGELOG.md as read
    changelogSection: string,  // what getChangeLog(nextVersion, config.user, changes) returns
    stagedFiles: nat)          // number of files git.diffSummary(["--cached"]) lists

  const ChangelogPath := "CHANGELOG.md"
  const ChangelogHeading := "# Changelog\n\n"

  /** Commit message and pull-request title. */
  function ReleaseTitle(version: string): string
  {
    "\U{1F389} Release " + version
  }

  function PullRequestBranch(env: PrepareEnv): string
  {
    match env.user.getPullRequestBranch
    case Some(branch) => branch
    case None => "next-release/" + env.nextVersion
  }

  function ReleaseBranch(env: PrepareEnv): string
  {
    match env.user.getReleaseBranch
    case Some(branch) => branch
    case None => "main"
  }

  function RemoteRef(branch: string): string
  {
    "remotes/origin/" + branch
  }

  /** The pull-request branch counts as existing when its remote-tracking
      ref is in the branch list. */
  predicate BranchExists(env: PrepareEnv)
  {
    RemoteRef(PullRequestBranch(env)) in env.branches
  }

  function MergeArgs(pullRequestBranch: string, releaseBranch: string): seq<string>
  {
    ["origin/" + releaseBranch, "-m",
     "Merge branch 'origin/" + releaseBranch + "' into '" + pullRequestBranch + "'", "--no-edit"]
  }

  function PushArgs(pullRequestBranch: string): seq<string>
  {
    ["-u", "origin", pullRequestBranch]
  }

  /** The rewritten changelog (lines 80-84). */
  function NewChangelog(section: string, previous: string): string
  {
    ChangelogHeading + section + "\n\n" + previous
  }

  /** The rewritten changelog is the heading, the new section, a blank line,
      and the previous content kept whole beneath them. */
  lemma NewChangelogLayout(section: string, previous: string)
    ensures var r := NewChangelog(section, previous);
      |r| == |ChangelogHeading| + |section| + 2 + |previous| &&
      r[..|ChangelogHeading|] == ChangelogHeading &&
      r[|ChangelogHeading|..|ChangelogHeading| + |section|] == section &&
      r[|ChangelogHeading| + |section|..|r| - |previous|] == "\n\n" &&
      r[|r| - |previous|..] == previous
  {
    var r := NewChangelog(section, previous);
    assert r == (ChangelogHeading + section) + "\n\n" + previous;
  }

  function Changelog(env: PrepareEnv): string
  {
    NewChangelog(env.changelogSection, env.oldChangelog)
  }

  function PullRequestDescription(env: PrepareEnv): string
  {
    match env.user.getReleaseDescription
    case Some(description) => description
    case None => Changelog(env)
  }

  // ----- The plan: what a run calls when nothing throws -----

  /** Branch-name hooks, then the branch list. */
  function Resolution(env: PrepareEnv): seq<Effect>
  {
    HookStep(env.user.getPullRequestBranch.Some?, GetPullRequestBranch) +
    HookStep(env.user.getReleaseBranch.Some?, GetReleaseBranch) +
    [ListBranches]
  }

  /** Check out, pull and merge an existing branch, or create a tracking one. */
  function Reconciliation(env: PrepareEnv): seq<Effect>
  {
    var pullRequestBranch := PullRequestBranch(env);
    if BranchExists(env) then
      [Checkout([pullRequestBranch]), Pull(pullRequestBranch), Merge(MergeArgs(pullRequestBranch, ReleaseBranch(env)))]
    else
      [Checkout(["-B", pullRequestBranch, "--track"])]
  }

  function PrepareGate(env: PrepareEnv): seq<Effect>
  {
    HookStep(env.user.beforePrepare.Some?, BeforePrepare)
  }

  function CommitAndPush(env: PrepareEnv): seq<Effect>
  {
    if env.stagedFiles > 0 then
      [Add("."), Commit(ReleaseTitle(env.nextVersion)), Push(PushArgs(PullRequestBranch(env)))]
    else
      []
  }

  function ChangelogUpdate(env: PrepareEnv): seq<Effect>
  {
    [ReadFile(ChangelogPath), WriteFile(ChangelogPath, Changelog(env)), DiffSummary(["--cached"])] +
    CommitAndPush(env)
  }

  /** The draft pull request from the pull-request branch into the release branch. */
  function ExpectedPullRequest(env: PrepareEnv): Effect
    requires HasRepository(env.ci)
  {
    CreatePullRequest(env.ci.repoOwner.value, env.ci.repoName.value, ReleaseTitle(env.nextVersion),
                      PullRequestDescription(env), true, PullRequestBranch(env), ReleaseBranch(env))
  }

  function PullRequestStep(env: PrepareEnv): seq<Effect>
    requires HasRepository(env.ci)
  {
    HookStep(env.user.getReleaseDescription.Some?, GetReleaseDescription) +
    ([ExpectedPullRequest(env)] +
     HookStep(env.user.afterPrepare, AfterPrepare))
  }

  /** Whether `beforePrepare` cancels the run. */
  predicate PrepareVetoed(env: PrepareEnv)
  {
    env.user.beforePrepare == Some(ReturnedFalse)
  }

  /** What follows the changelog update: the pull request, when the
      repository is configured. */
  function Finale(env: PrepareEnv): seq<Effect>
  {
    if HasRepository(env.ci) then PullRequestStep(env) else []
  }

  /** What follows the branch reconciliation. */
  function PastReconciliation(env: PrepareEnv): seq<Effect>
  {
    if PrepareVetoed(env) then [Hook(BeforePrepare)]
    else PrepareGate(env) + (ChangelogUpdate(env) + Finale(env))
  }

  function PreparePlan(env: PrepareEnv): Plan
  {
    Plan(Resolution(env) + (Reconciliation(env) + PastReconciliation(env)),
         if PrepareVetoed(env) then Cancelled
         else if !HasRepository(env.ci) then Failed(MissingRepoConfig)
         else Done)
  }

  /** The outcome of a run in which the calls at the positions in `fails` throw. */
  function PrepareOutcome(env: PrepareEnv, fails: set<nat>): Outcome
  {
    Run(PreparePlan(env), fails)
  }

  // ----- The command, step by step -----

  /** Lines 29-37: resolve both branch names, then list the branches. */
  method ResolveBranches(env: PrepareEnv, fails: set<nat>, ghost p: Plan, ghost rest: seq<Effect>)
    returns (trace: seq<Effect>, stopped: Option<Outcome>, pullRequestBranch: string, releaseBranch: string)
    requires OnPlan(fails, p, [], Resolution(env) + rest)
    ensures PhaseDone(fails, p, [], Resolution(env), rest, stopped, trace)
    ensures stopped.None? ==> pullRequestBranch == PullRequestBranch(env) && releaseBranch == ReleaseBranch(env)
  {
    ghost var todo := p.effects;
    var threw: bool;
    trace := [];
    pullRequestBranch := "next-release/" + env.nextVersion;
    if env.user.getPullRequestBranch.Some? {
      trace, threw, todo := Call(p, trace, Hook(GetPullRequestBranch), fails, todo);
      if threw { return trace, Some(Outcome(trace, Failed(Threw(Hook(GetPullRequestBranch))))), "", ""; }
      pullRequestBranch := env.user.getPullRequestBranch.value;
    }
    releaseBranch := "main";
    if env.user.getReleaseBranch.Some? {
      trace, threw, todo := Call(p, trace, Hook(GetReleaseBranch), fails, todo);
      if threw { return trace, Some(Outcome(trace, Failed(Threw(Hook(GetReleaseBranch))))), "", ""; }
      releaseBranch := env.user.getReleaseBranch.value;
    }
    trace, threw, todo := Call(p, trace, ListBranches, fails, todo);
    if threw { return trace, Some(Outcome(trace, Failed(Threw(ListBranches)))), "", ""; }
    stopped := None;
  }

  /** Lines 37-68: check out, pull and merge the existing branch, or create it. */
  method ReconcileBranch(env: PrepareEnv, fails: set<nat>, ghost p: Plan, trace: seq<Effect>, ghost rest: seq<Effect>,
                         pullRequestBranch: string, releaseBranch: string)
    returns (after: seq<Effect>, stopped: Option<Outcome>)
    requires OnPlan(fails, p, trace, Reconciliation(env) + rest)
    requires pullRequestBranch == PullRequestBranch(env) && releaseBranch == ReleaseBranch(env)
    ensures PhaseDone(fails, p, trace, Reconciliation(env), rest, stopped, after)
  {
    ghost var todo := Reconciliation(env) + rest;
    var threw: bool;
    after := trace;
    if RemoteRef(pullRequestBranch) in env.branches {
      after, threw, todo := Call(p, after, Checkout([pullRequestBranch]), fails, todo);
      if threw { return after, Some(Outcome(after, Failed(Threw(Checkout([pullRequestBranch]))))); }
      // a failing pull is caught and only logged
      after, threw, todo := Call(p, after, Pull(pullRequestBranch), fails, todo);
      var mergeArgs := MergeArgs(pullRequestBranch, releaseBranch);
      after, threw, todo := Call(p, after, Merge(mergeArgs), fails, todo);
      if threw { return after, Some(Outcome(after, Failed(Threw(Merge(mergeArgs))))); }
    } else {
      after, threw, todo := Call(p, after, Checkout(["-B", pullRequestBranch, "--track"]), fails, todo);
      if threw { return after, Some(Outcome(after, Failed(Threw(Checkout(["-B", pullRequestBranch, "--track"]))))); }
    }
    stopped := None;
  }

  /** Lines 79-95: rewrite the changelog, then commit and push if anything is staged. */
  method UpdateChangelog(env: PrepareEnv, fails: set<nat>, ghost p: Plan, trace: seq<Effect>, ghost rest: seq<Effect>,
                         pullRequestBranch: string)
    returns (after: seq<Effect>, stopped: Option<Outcome>, changelog: string)
    requires OnPlan(fails, p, trace, ChangelogUpdate(env) + rest)
    requires pullRequestBranch == PullRequestBranch(env)
    ensures PhaseDone(fails, p, trace, ChangelogUpdate(env), rest, stopped, after)
    ensures changelog == Changelog(env)
  {
    ghost var todo := ChangelogUpdate(env) + rest;
    var threw: bool;
    after := trace;
    changelog := NewChangelog(env.changelogSection, env.oldChangelog);
    after, threw, todo := Call(p, after, ReadFile(ChangelogPath), fails, todo);
    if threw { return after, Some(Outcome(after, Failed(Threw(ReadFile(ChangelogPath))))), changelog; }
    after, threw, todo := Call(p, after, WriteFile(ChangelogPath, changelog), fails, todo);
    if threw { return after, Some(Outcome(after, Failed(Threw(WriteFile(ChangelogPath, changelog))))), changelog; }
    after, threw, todo := Call(p, after, DiffSummary(["--cached"]), fails, todo);
    if threw { return after, Some(Outcome(after, Failed(Threw(DiffSummary(["--cached"]))))), changelog; }
    assert todo == CommitAndPush(env) + rest;
    after, stopped := CommitStaged(env, fails, p, after, rest, pullRequestBranch);
  }

  /** Lines 90-95: commit and push only when the staged diff lists a file. */
  method CommitStaged(env: PrepareEnv, fails: set<nat>, ghost p: Plan, trace: seq<Effect>, ghost rest: seq<Effect>,
                      pullRequestBranch: string)
    returns (after: seq<Effect>, stopped: Option<Outcome>)
    requires OnPlan(fails, p, trace, CommitAndPush(env) + rest)
    requires pullRequestBranch == PullRequestBranch(env)
    ensures PhaseDone(fails, p, trace, CommitAndPush(env), rest, stopped, after)
  {
    ghost var todo := CommitAndPush(env) + rest;
    var threw: bool;
    after := trace;
    if env.stagedFiles > 0 {
      after, threw, todo := Call(p, after, Add("."), fails, todo);
      if threw { return after, Some(Outcome(after, Failed(Threw(Add("."))))); }
      var message := ReleaseTitle(env.nextVersion);
      after, threw, todo := Call(p, after, Commit(message), fails, todo);
      if threw { return after, Some(Outcome(after, Failed(Threw(Commit(message))))); }
      var pushArgs := PushArgs(pullRequestBranch);
      after, threw, todo := Call(p, after, Push(pushArgs), fails, todo);
      if threw { return after, Some(Outcome(after, Failed(Threw(Push(pushArgs))))); }
    }
    stopped := None;
  }

  /** Lines 101-119: create or update the pull request, then run `afterPrepare`. */
  method OpenPullRequest(env: PrepareEnv, fails: set<nat>, ghost p: Plan, trace: seq<Effect>,
                         pullRequestBranch: string, releaseBranch: string, changelog: string)
    returns (after: seq<Effect>, stopped: Option<Outcome>)
    requires HasRepository(env.ci)
    requires OnPlan(fails, p, trace, PullRequestStep(env))
    requires pullRequestBranch == PullRequestBranch(env) && releaseBranch == ReleaseBranch(env)
    requires changelog == Changelog(env)
    ensures PhaseDone(fails, p, trace, PullRequestStep(env), [], stopped, after)
  {
    ghost var todo := PullRequestStep(env);
    var threw: bool;
    after := trace;
    var releaseDescription := changelog;
    if env.user.getReleaseDescription.Some? {
      after, threw, todo := Call(p, after, Hook(GetReleaseDescription), fails, todo);
      if threw { return after, Some(Outcome(after, Failed(Threw(Hook(GetReleaseDescription))))); }
      releaseDescription := env.user.getReleaseDescription.value;
    }
    var createPullRequest := CreatePullRequest(env.ci.repoOwner.value, env.ci.repoName.value,
                                               ReleaseTitle(env.nextVersion), releaseDescription,
                                               true, pullRequestBranch, releaseBranch);
    after, threw, todo := Call(p, after, createPullRequest, fails, todo);
    if threw { return after, Some(Outcome(after, Failed(Threw(createPullRequest)))); }
    if env.user.afterPrepare {
      after, threw, todo := Call(p, after, Hook(AfterPrepare), fails, todo);
      if threw { return after, Some(Outcome(after, Failed(Threw(Hook(AfterPrepare))))); }
    }
    stopped := None;
  }

  /** Lines 70-77: the `beforePrepare` hook, whose `false` cancels the run. */
  method AskBeforePrepare(env: PrepareEnv, fails: set<nat>, ghost p: Plan, trace: seq<Effect>)
    returns (after: seq<Effect>, stopped: Option<Outcome>)
    requires PrepareVetoed(env) ==> p.end == Cancelled
    requires OnPlan(fails, p, trace, PastReconciliation(env))
    ensures stopped.None? ==> !PrepareVetoed(env)
    ensures PhaseDone(fails, p, trace, PrepareGate(env), ChangelogUpdate(env) + Finale(env), stopped, after)
  {
    after := trace;
    stopped := None;
    ghost var todo: seq<Effect> := PastReconciliation(env);
    if env.user.beforePrepare.Some? {
      var threw: bool;
      after, threw, todo := Call(p, after, Hook(BeforePrepare), fails, todo);
      if threw { return after, Some(Outcome(after, Failed(Threw(Hook(BeforePrepare))))); }
      if env.user.beforePrepare.value == ReturnedFalse {
        Finished(p, fails, after);
        return after, Some(Outcome(after, Cancelled));
      }
    }
  }

  /** The whole command (lines 7-128). */
  method Prepare(env: PrepareEnv, fails: set<nat>) returns (o: Outcome)
    ensures o == PrepareOutcome(env, fails)
  {
    ghost var p := PreparePlan(env);
    var trace, stopped, pullRequestBranch, releaseBranch :=
      ResolveBranches(env, fails, p, Reconciliation(env) + PastReconciliation(env));
    if stopped.Some? { return stopped.value; }

    trace, stopped := ReconcileBranch(env, fails, p, trace, PastReconciliation(env), pullRequestBranch, releaseBranch);
    if stopped.Some? { return stopped.value; }

    trace, stopped := AskBeforePrepare(env, fails, p, trace);
    if stopped.Some? { return stopped.value; }

    var changelog;
    trace, stopped, changelog := UpdateChangelog(env, fails, p, trace, Finale(env), pullRequestBranch);
    if stopped.Some? { return stopped.value; }

    if !IsSet(env.ci.repoOwner) || !IsSet(env.ci.repoName) {
      Finished(p, fails, trace);
      return Outcome(trace, Failed(MissingRepoConfig));
    }

    trace, stopped := OpenPullRequest(env, fails, p, trace, pullRequestBranch, releaseBranch, changelog);
    if stopped.Some? { return stopped.value; }
    Finished(p, fails, trace);
    return Outcome(trace, Done);
  }
}
