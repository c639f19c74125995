# ready-release-go: the prepare and release workflows

This project models the two commands of the ready-release-go plugin, a CI
pipeline plugin that automates releases, and proves properties of the model.

- `prepare` brings the release pull-request branch up to date with the
  release branch. It prepends a new section to `CHANGELOG.md` and commits and
  pushes when something is staged. It then creates or updates the draft
  release pull request on the forge.
- `release` creates the forge release for the next version. Unless the
  `getReleaseDescription` hook supplies the description, the description
  thanks every contributor. It leaves a comment on every pull request of the
  release.

Both commands are strictly sequential, with user hooks at fixed points.

Each command is modelled in two ways.

- **Plan.** `PreparePlan` and `ReleasePlan` are pure functions of an
  environment. The environment holds everything the command reads: its
  hooks' answers, the branch list, the old changelog, the staged-file count,
  the repository coordinates and the forge's answers. The plan is the
  sequence of external calls when nothing throws, plus the status the run
  then ends in.
- **Command.** `Prepare` and `Release` are imperative methods. They follow
  the source's control flow call by call, including early returns, the
  caught pull error and the per-change comment loop. Each is proved to
  return `Run(plan, fails)`. That is the plan cut at the first call that
  throws an error nobody catches, where `fails` holds the positions of the
  calls that throw.

Most properties are lemmas about `PrepareOutcome` / `ReleaseOutcome` for every
environment and every failure set. The rest are of two kinds:

- lemmas about the text the commands build, for all inputs: the changelog,
  the contributor block and joins;
- concrete scenarios, each for one fixed environment:
  `ReconciliationScenarios` (about `Reconciliation`, version 1.2.0) and
  `AliceScenario` (one run with no failures).

Modules:

- `Context`: inputs, hooks, CI configuration and JavaScript truthiness.
- `Effects`: calls, outcomes, `Run` and ordering.
- `PrepareCommand` and `PrepareProperties`.
- `ReleaseCommand` and `ReleaseProperties`.

## Model

| member | source | states |
|---|---|---|
| PrepareCommand.Prepare | src/cmd/prepare.ts:7-128 | The command's control flow yields exactly the plan's outcome: the calls in order, cut at the first uncaught error, otherwise Cancelled, Failed(missing config) or Done. |
| PrepareCommand.ResolveBranches | src/cmd/prepare.ts:29-37 | Calls each configured branch hook, then lists the branches. It returns the hook's name or the default, unless a call threw. |
| PrepareCommand.ReconcileBranch | src/cmd/prepare.ts:37-68 | Takes checkout/pull/merge when the remote ref is listed, otherwise `checkout -B … --track`. A throwing pull is ignored; a throwing checkout or merge ends the run. |
| PrepareCommand.AskBeforePrepare | src/cmd/prepare.ts:70-77 | Calls `beforePrepare` when configured. A `false` answer ends the run as Cancelled, a throw ends it as failed; otherwise the run goes on past the gate, which then was not vetoed. |
| PrepareCommand.UpdateChangelog | src/cmd/prepare.ts:79-95 | Reads, writes the new changelog, queries the staged diff, then commits. A throw at any step ends the run. |
| PrepareCommand.CommitStaged | src/cmd/prepare.ts:90-95 | Adds, commits and pushes only when the staged diff lists a file. |
| PrepareCommand.OpenPullRequest | src/cmd/prepare.ts:101-119 | Runs the description hook if configured, then creates the pull request, then runs `afterPrepare` if configured. |
| PrepareCommand.NewChangelogLayout | src/cmd/prepare.ts:79-84 | The new changelog is the heading, the section, a blank line, then the old content unchanged as a suffix. |
| PrepareCommand.PreparePlan | src/cmd/prepare.ts:29-127 | The definition of the command's calls when nothing throws: resolution, reconciliation, the gate, the changelog update and the finale, ending Cancelled, Failed(missing config) or Done. `Prepare` is proved to follow it; the `PrepareProperties` lemmas characterise it. |
| PrepareCommand.PullRequestBranch | src/cmd/prepare.ts:29-31 | The definition of the pull-request branch name: the hook's answer or `next-release/<version>`. `BranchNamesResolvedOnce` states it and that every call uses it. |
| PrepareCommand.ReleaseBranch | src/cmd/prepare.ts:33-35 | The definition of the release branch name: the hook's answer or `main`. `BranchNamesResolvedOnce` states it and that every call uses it. |
| PrepareCommand.Reconciliation | src/cmd/prepare.ts:37-68 | The definition of the reconciliation calls for the two paths. `ReconciliationPath`, `ReconciliationOrder`, `ReconciliationScenarios` and `MergeFailureEndsRun` characterise it. |
| PrepareProperties.BranchHooksCalled | src/cmd/prepare.ts:29-35 | A configured pull-request-branch hook is always called, once. A configured release-branch hook is called once unless the first hook threw. |
| PrepareProperties.BranchNamesResolvedOnce | src/cmd/prepare.ts:29-35 | Each branch hook runs at most once, and a configured hook runs exactly once: the first always, the second unless the first threw. The names are the hook's or `next-release/<version>` and `main`. Every git and forge call uses these two names. |
| PrepareProperties.ReconciliationPath | src/cmd/prepare.ts:37-68 | Pull or merge happen only when the remote-tracking ref is listed. Each checkout has the argument of its path. |
| PrepareProperties.ReconciliationOrder | src/cmd/prepare.ts:37-68 | Without errors, the branch list comes right before the reconciliation, whose calls come in the order of its path. |
| PrepareProperties.ReconciliationScenarios | src/cmd/prepare.ts:37-68 | For `next-release/1.2.0`, the listed remote ref gives checkout+pull+merge. An empty list gives only the creating checkout. |
| PrepareProperties.PullFailureSwallowed | src/cmd/prepare.ts:45-54 | Whether the pull throws never changes the outcome. |
| PrepareProperties.MergeFailureEndsRun | src/cmd/prepare.ts:56-61 | A throwing merge ends the run as failed, and the merge is the last call. |
| PrepareProperties.BeforePrepareGate | src/cmd/prepare.ts:70-77 | The run is cancelled iff `beforePrepare` returned `false` and nothing threw. The trace is then resolution + reconciliation + the hook, and nothing past the gate runs. Any other answer leads to the changelog write. |
| PrepareProperties.ChangelogRewrite | src/cmd/prepare.ts:79-88 | The only write is of `"# Changelog\n\n" + section + "\n\n" + old`, once, after the read and before the diff query. It happens whenever the gate is passed without errors. |
| PrepareProperties.CommitGatedByStagedDiff | src/cmd/prepare.ts:90-95 | Add/commit/push happen only when a staged file is listed and the gate passed. The message is `🎉 Release <v>` and the push args are `-u origin <branch>`. The order is diff, add, commit, push. All happen when nothing throws. |
| PrepareProperties.MissingRepoConfigPrepare | src/cmd/prepare.ts:97-99 | Without owner or name there is no pull request, no description hook and no `afterPrepare`. The run is never Done. Otherwise it fails after the changelog update, commit and push included. |
| PrepareProperties.PullRequestCall | src/cmd/prepare.ts:101-114 | The pull request is created once with the title, the hook's description or else the full changelog, draft true and the source/target branches. The description hook runs before it. |
| PrepareProperties.AfterPrepareLast | src/cmd/prepare.ts:116-119 | `afterPrepare` runs only when configured, after the pull request, as the last call of a fully carried-out plan. |
| PrepareProperties.PrepareDone | src/cmd/prepare.ts:97-127 | Done iff the repository is configured, the gate passes and nothing throws. The pull request is then created and `afterPrepare` ran iff configured. |
| ReleaseCommand.ReleasePlan | src/cmd/release.ts:17-77 | The definition of the command's calls when nothing throws: the gate, then the description hook, the release, the comments and `afterRelease`, ending Cancelled, Failed(missing config) or Done. `Release` is proved to follow it; the `ReleaseProperties` lemmas characterise it. |
| ReleaseCommand.Contributors | src/cmd/release.ts:35-37 | The definition of the contributor block: the heading, then the mentions joined by `, `. `ContributorsMentionEveryAuthor` and `ContributorsAppend` characterise it. |
| ReleaseCommand.ReleaseDescription | src/cmd/release.ts:39-41 | The definition of the release description: the hook's text when configured, otherwise contributors, a blank line and the changelog section. `ReleaseCall` states both cases and that the release carries it. |
| ReleaseCommand.Release | src/cmd/release.ts:5-78 | The command's control flow yields exactly the plan's outcome. |
| ReleaseCommand.AskBeforeRelease | src/cmd/release.ts:17-22 | Calls `beforeRelease` when configured. A `false` answer ends the run as Cancelled, a throw ends it as failed; otherwise the run goes on past the gate, which then was not vetoed. |
| ReleaseCommand.Publish | src/cmd/release.ts:39-77 | Runs the description hook, then creates the release, then the comments, then `afterRelease`. Each call that throws ends the run. |
| ReleaseCommand.Notify | src/cmd/release.ts:55-72 | The loop over the changes makes exactly the planned comments, in order. The first that throws ends the run. |
| ReleaseCommand.NotifyOne | src/cmd/release.ts:56-71 | Skips a change with an absent or zero number, otherwise comments on its pull request. |
| ReleaseCommand.Mentions | src/cmd/release.ts:35-37 | One `@author` per change, in order, at the same index. |
| ReleaseCommand.CommentText | src/cmd/release.ts:60-64 | The comment contains the version and the release link. |
| ReleaseCommand.PullRequestNumbers | src/cmd/release.ts:55-58 | At most one number per change. |
| ReleaseCommand.PullRequestNumbersSelect | src/cmd/release.ts:55-58 | The selected numbers are the truthy ones: none is 0, each comes from a change, and each change with one contributes it. |
| ReleaseCommand.PullRequestNumbersAppend | src/cmd/release.ts:55-58 | Selection keeps input order: it distributes over concatenation. |
| ReleaseProperties.ContributorsMentionEveryAuthor | src/cmd/release.ts:35-37 | The block starts with its heading and contains `@author` for every change. There are as many mentions as changes, with no deduplication. |
| ReleaseProperties.ContributorsAppend | src/cmd/release.ts:35-37 | One more change appends exactly `, @author`, so order is kept and duplicates are not removed. |
| ReleaseProperties.JoinContainsParts | src/cmd/release.ts:35-37 | Every part of a join occurs in it. |
| ReleaseProperties.BeforeReleaseGate | src/cmd/release.ts:17-22 | Cancelled iff `beforeRelease` returned `false` and nothing threw. The trace is then only the hook, with no forge call. |
| ReleaseProperties.MissingRepoConfigRelease | src/cmd/release.ts:24-26 | Without owner or name the trace is only the gate, with no release or comment. The run fails with missing config when nothing threw. |
| ReleaseProperties.ReleaseCall | src/cmd/release.ts:39-50 | The release is created once with tag = name = version and the hook's description or else contributors + blank line + section. The description hook runs before it. |
| ReleaseProperties.ReleaseBeforeComments | src/cmd/release.ts:44-72 | Every comment comes after the release. |
| ReleaseProperties.CommentsFollowChanges | src/cmd/release.ts:55-72 | The commented numbers are a prefix of the truthy numbers in input order, and all of them when nothing throws. |
| ReleaseProperties.CommentContents | src/cmd/release.ts:60-71 | Each comment goes to the configured repository, on a selected pull request. It states the version and links the release. |
| ReleaseProperties.AfterReleaseLast | src/cmd/release.ts:66-77 | `afterRelease` runs only after every comment, as the last call. A throwing comment ends the run without it. |
| ReleaseProperties.AliceScenario | src/cmd/release.ts:35-72 | Version 2.0.0 with alice's pull request 42 gives exactly a CreateRelease (tag and name 2.0.0), then one comment on 42, then Done. |

## Left out

- Logging and output colouring are not modelled: they have no effect on the run.
- File-system, git and forge calls are abstract effects. The answers they give come from the environment: `branches`, `oldChangelog`, `stagedFiles` and `releaseLink`.
- `getChangeLog` and `getChangeLogSection` are not part of this model. Their results enter as `changelogSection`.
- Hooks are modelled only by their answers and their position in the trace. What they do through `exec` is not modelled, nor the context object passed to them: `prepare` wraps `exec` with logging, `release` passes it unwrapped.
- `async`/`await` and `for await` are not modelled: the code is strictly sequential, so the model runs the calls in order.
- Failures are modelled by call position: which calls throw is an input. Only the pull's error is caught; every other error ends the run.
- The link that `createOrUpdatePullRequest` returns is only logged, so it is not part of the outcome.
- PrepareCommand.CommitStaged: takes the staged-file count as an input, measured by `git.diffSummary(["--cached"])` before `git.add(".")`. As the code is written, the files that the add is about to stage are not yet counted.
- The behaviour of two `prepare` runs in succession (a second run commits nothing) is not modelled. It depends on git's staging semantics, which are outside this model.
