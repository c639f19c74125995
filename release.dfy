/** The `release` command (src/cmd/release.ts): after the `beforeRelease`
    gate, create the forge release for the next version, thank the
    contributors in its description, and comment on every pull request of
    the release before running `afterRelease`. */
module ReleaseCommand {
  import opened Context
  import opened Effects

  /** Everything a `release` run depends on, apart from which of its calls
      throw: the command context and the answers of the external calls. */
  datatype ReleaseEnv = ReleaseEnv(
    nextVersion: string,
    user: UserHooks,
    ci: CiConfig,
    changes: seq<Change>,
    changelogSection: string,  // what getChangeLogSection(nextVersion, config, changes, forge) returns
    releaseLink: string)       // what forge.createRelease returns

  const ContributorsHeading := "# :heart: Thanks to all the people who contributed! :heart:\n\n"

  // ----- Text -----

  /** `s` occurs in `t` at position `i`. */
  predicate Occurs(t: string, s: string, i: nat)
  {
    i + |s| <= |t| && t[i..i + |s|] == s
  }

  predicate Contains(t: string, s: string)
  {
    exists i: nat :: i <= |t| && Occurs(t, s, i)
  }

  /** One mention `@author` per change, in order, duplicates kept. */
  function Mentions(changes: seq<Change>): (r: seq<string>)
    ensures |r| == |changes|
    ensures forall i :: 0 <= i < |r| ==> r[i] == "@" + changes[i].author
  {
    if changes == [] then [] else ["@" + changes[0].author] + Mentions(changes[1..])
  }

  /** `Array.prototype.join`. */
  function Join(parts: seq<string>, separator: string): string
  {
    if parts == [] then ""
    else if |parts| == 1 then parts[0]
    else parts[0] + separator + Join(parts[1..], separator)
  }

  /** The thanks section of the release description (lines 35-37). */
  function Contributors(changes: seq<Change>): string
  {
    ContributorsHeading + Join(Mentions(changes), ", ")
  }

  /** The release description: the hook's, or else the thanks section above
      the changelog section (lines 39-41). */
  function ReleaseDescription(env: ReleaseEnv): string
  {
    match env.user.getReleaseDescription
    case Some(description) => description
    case None => Contributors(env.changes) + "\n\n" + env.changelogSection
  }

  /** The comment left on each released pull request (lines 60-64). */
  function CommentText(version: string, releaseLink: string): (r: string)
    ensures Contains(r, version) && Contains(r, releaseLink)
  {
    var lead := ":tada: This PR is included in version ";
    var middle := " :tada:\n\nThe release is now available [here](";
    var r := lead + version + middle + releaseLink + ")\n\nThank you for your contribution. :heart::package::rocket:";
    assert Occurs(r, version, |lead|) by {
      assert r[|lead|..|lead| + |version|] == version;
    }
    assert Occurs(r, releaseLink, |lead + version + middle|) by {
      assert r[|lead + version + middle|..|lead + version + middle| + |releaseLink|] == releaseLink;
    }
    r
  }

  // ----- Which pull requests are commented on -----

  /** The number of a change, when it is truthy. */
  function NumberOf(change: Change): (r: seq<int>)
  {
    if HasNumber(change.pullRequestNumber) then [change.pullRequestNumber.value] else []
  }

  /** The truthy pull-request numbers of the changes, in order (lines 55-58). */
  function PullRequestNumbers(changes: seq<Change>): (r: seq<int>)
    ensures |r| <= |changes|
  {
    if changes == [] then [] else NumberOf(changes[0]) + PullRequestNumbers(changes[1..])
  }

  /** Exactly the truthy numbers are selected: none of them is 0 or absent,
      each comes from a change, and every change with one contributes it. */
  lemma {:induction false} PullRequestNumbersSelect(changes: seq<Change>)
    ensures forall n :: n in PullRequestNumbers(changes) ==> n != 0 && exists c :: c in changes && c.pullRequestNumber == Some(n)
    ensures forall c :: c in changes && HasNumber(c.pullRequestNumber) ==> c.pullRequestNumber.value in PullRequestNumbers(changes)
  {
    if changes != [] {
      PullRequestNumbersSelect(changes[1..]);
      assert forall c :: c in changes ==> c == changes[0] || c in changes[1..];
      assert forall c :: c in changes[1..] ==> c in changes;
    }
  }

  lemma {:induction false} PullRequestNumbersAppend(a: seq<Change>, b: seq<Change>)
    ensures PullRequestNumbers(a + b) == PullRequestNumbers(a) + PullRequestNumbers(b)
    decreases |a|
  {
    if a != [] {
      assert (a + b)[0] == a[0] && (a + b)[1..] == a[1..] + b;
      PullRequestNumbersAppend(a[1..], b);
      assert PullRequestNumbers(a + b) == NumberOf(a[0]) + PullRequestNumbers(a[1..] + b);
    } else {
      assert a + b == b;
    }
  }

  /** One comment per number, in order. */
  function Notifications(owner: string, repo: string, numbers: seq<int>, comment: string): seq<Effect>
  {
    if numbers == [] then [] else [AddComment(owner, repo, numbers[0], comment)] + Notifications(owner, repo, numbers[1..], comment)
  }

  /** The i-th notification comments on the i-th number. */
  lemma {:induction false} NotificationsShape(owner: string, repo: string, numbers: seq<int>, comment: string)
    ensures var r := Notifications(owner, repo, numbers, comment);
      |r| == |numbers| && forall i :: 0 <= i < |r| ==> r[i] == AddComment(owner, repo, numbers[i], comment)
  {
    if numbers != [] {
      NotificationsShape(owner, repo, numbers[1..], comment);
    }
  }

  lemma NotificationsAppend(owner: string, repo: string, a: seq<int>, b: seq<int>, comment: string)
    ensures Notifications(owner, repo, a + b, comment) == Notifications(owner, repo, a, comment) + Notifications(owner, repo, b, comment)
  {
    var l, r := Notifications(owner, repo, a + b, comment), Notifications(owner, repo, a, comment) + Notifications(owner, repo, b, comment);
    NotificationsShape(owner, repo, a + b, comment);
    NotificationsShape(owner, repo, a, comment);
    NotificationsShape(owner, repo, b, comment);
    assert |l| == |r|;
    forall i | 0 <= i < |l| ensures l[i] == r[i] {
      if i >= |a| { assert (a + b)[i] == b[i - |a|]; }
    }
  }

  // ----- The plan -----

  /** Whether `beforeRelease` cancels the run. */
  predicate ReleaseVetoed(env: ReleaseEnv)
  {
    env.user.beforeRelease == Some(ReturnedFalse)
  }

  function ReleaseGate(env: ReleaseEnv): seq<Effect>
  {
    HookStep(env.user.beforeRelease.Some?, BeforeRelease)
  }

  function ExpectedRelease(env: ReleaseEnv): Effect
    requires HasRepository(env.ci)
  {
    CreateRelease(env.ci.repoOwner.value, env.ci.repoName.value, env.nextVersion, ReleaseDescription(env), env.nextVersion)
  }

  function Comments(env: ReleaseEnv): seq<Effect>
    requires HasRepository(env.ci)
  {
    Notifications(env.ci.repoOwner.value, env.ci.repoName.value, PullRequestNumbers(env.changes),
                  CommentText(env.nextVersion, env.releaseLink))
  }

  /** What follows the gate when the repository is configured. */
  function Publication(env: ReleaseEnv): seq<Effect>
    requires HasRepository(env.ci)
  {
    HookStep(env.user.getReleaseDescription.Some?, GetReleaseDescription) +
    ([ExpectedRelease(env)] + (Comments(env) + HookStep(env.user.afterRelease, AfterRelease)))
  }

  function ReleasePlan(env: ReleaseEnv): Plan
  {
    if ReleaseVetoed(env) then Plan(ReleaseGate(env), Cancelled)
    else if !HasRepository(env.ci) then Plan(ReleaseGate(env), Failed(MissingRepoConfig))
    else Plan(ReleaseGate(env) + Publication(env), Done)
  }

  /** The outcome of a run in which the calls at the positions in `fails` throw. */
  function ReleaseOutcome(env: ReleaseEnv, fails: set<nat>): Outcome
  {
    Run(ReleasePlan(env), fails)
  }

  // ----- The command, step by step -----

  /** Before the i-th change: its comment, if any, comes first. */
  lemma NotifyNext(owner: string, repo: string, comment: string, changes: seq<Change>, i: nat)
    requires i < |changes|
    ensures Notifications(owner, repo, PullRequestNumbers(changes[i..]), comment) ==
      Notifications(owner, repo, NumberOf(changes[i]), comment) + Notifications(owner, repo, PullRequestNumbers(changes[i + 1..]), comment)
  {
    var change := changes[i];
    assert changes[i..] == [change] + changes[i + 1..];
    PullRequestNumbersAppend([change], changes[i + 1..]);
    NotificationsAppend(owner, repo, PullRequestNumbers([change]), PullRequestNumbers(changes[i + 1..]), comment);
  }

  /** After the i-th change: the comments so far are those of the first i + 1 changes. */
  lemma NotifyDone(trace: seq<Effect>, owner: string, repo: string, comment: string, changes: seq<Change>, i: nat)
    requires i < |changes|
    ensures trace + Notifications(owner, repo, PullRequestNumbers(changes[..i]), comment) + Notifications(owner, repo, NumberOf(changes[i]), comment) ==
      trace + Notifications(owner, repo, PullRequestNumbers(changes[..i + 1]), comment)
  {
    var change := changes[i];
    assert changes[..i + 1] == changes[..i] + [change];
    PullRequestNumbersAppend(changes[..i], [change]);
    NotificationsAppend(owner, repo, PullRequestNumbers(changes[..i]), PullRequestNumbers([change]), comment);
  }

  /** Lines 56-71: skip a change without a number, else comment on its pull request. */
  method NotifyOne(fails: set<nat>, ghost p: Plan, trace: seq<Effect>, ghost rest: seq<Effect>,
                   owner: string, repo: string, change: Change, comment: string)
    returns (after: seq<Effect>, stopped: Option<Outcome>)
    requires OnPlan(fails, p, trace, Notifications(owner, repo, NumberOf(change), comment) + rest)
    ensures PhaseDone(fails, p, trace, Notifications(owner, repo, NumberOf(change), comment), rest, stopped, after)
  {
    after := trace;
    stopped := None;
    if !HasNumber(change.pullRequestNumber) {
      return;
    }
    var threw;
    ghost var left;
    var addComment := AddComment(owner, repo, change.pullRequestNumber.value, comment);
    assert NumberOf(change)[1..] == [];
    assert Notifications(owner, repo, NumberOf(change), comment) == [addComment];
    after, threw, left := Call(p, after, addComment, fails, [addComment] + rest);
    if threw { return after, Some(Outcome(after, Failed(Threw(addComment)))); }
  }

  /** Lines 55-72: comment on every change that has a pull-request number. */
  method Notify(env: ReleaseEnv, fails: set<nat>, ghost p: Plan, trace: seq<Effect>, ghost rest: seq<Effect>,
                owner: string, repo: string, comment: string)
    returns (after: seq<Effect>, stopped: Option<Outcome>)
    requires OnPlan(fails, p, trace, Notifications(owner, repo, PullRequestNumbers(env.changes), comment) + rest)
    ensures PhaseDone(fails, p, trace, Notifications(owner, repo, PullRequestNumbers(env.changes), comment), rest, stopped, after)
  {
    after := trace;
    var i := 0;
    assert env.changes[i..] == env.changes;
    while i < |env.changes|
      invariant 0 <= i <= |env.changes|
      invariant after == trace + Notifications(owner, repo, PullRequestNumbers(env.changes[..i]), comment)
      invariant OnPlan(fails, p, after, Notifications(owner, repo, PullRequestNumbers(env.changes[i..]), comment) + rest)
    {
      NotifyNext(owner, repo, comment, env.changes, i);
      OnPlanSplit(fails, p, after, Notifications(owner, repo, PullRequestNumbers(env.changes[i..]), comment),
                  Notifications(owner, repo, NumberOf(env.changes[i]), comment),
                  Notifications(owner, repo, PullRequestNumbers(env.changes[i + 1..]), comment), rest);
      NotifyDone(trace, owner, repo, comment, env.changes, i);
      ghost var later := Notifications(owner, repo, PullRequestNumbers(env.changes[i + 1..]), comment) + rest;
      after, stopped := NotifyOne(fails, p, after, later, owner, repo, env.changes[i], comment);
      if stopped.Some? { return; }
      i := i + 1;
    }
    assert env.changes[..i] == env.changes;
    stopped := None;
  }

  /** Lines 39-77: the description, the release, the comments, `afterRelease`. */
  method Publish(env: ReleaseEnv, fails: set<nat>, ghost p: Plan, trace: seq<Effect>)
    returns (after: seq<Effect>, stopped: Option<Outcome>)
    requires HasRepository(env.ci)
    requires OnPlan(fails, p, trace, Publication(env))
    ensures PhaseDone(fails, p, trace, Publication(env), [], stopped, after)
  {
    ghost var todo := Publication(env);
    var threw: bool;
    after := trace;
    var owner, repo := env.ci.repoOwner.value, env.ci.repoName.value;
    var releaseDescription := Contributors(env.changes) + "\n\n" + env.changelogSection;
    if env.user.getReleaseDescription.Some? {
      after, threw, todo := Call(p, after, Hook(GetReleaseDescription), fails, todo);
      if threw { return after, Some(Outcome(after, Failed(Threw(Hook(GetReleaseDescription))))); }
      releaseDescription := env.user.getReleaseDescription.value;
    }
    var createRelease := CreateRelease(owner, repo, env.nextVersion, releaseDescription, env.nextVersion);
    after, threw, todo := Call(p, after, createRelease, fails, todo);
    if threw { return after, Some(Outcome(after, Failed(Threw(createRelease)))); }
    var releaseLink := env.releaseLink;  // the forge's answer to createRelease
    ghost var hook := HookStep(env.user.afterRelease, AfterRelease);
    after, stopped := Notify(env, fails, p, after, hook, owner, repo, CommentText(env.nextVersion, releaseLink));
    if stopped.Some? { return; }
    if env.user.afterRelease {
      after, threw, todo := Call(p, after, Hook(AfterRelease), fails, hook);
      if threw { return after, Some(Outcome(after, Failed(Threw(Hook(AfterRelease))))); }
    }
  }

  /** Lines 17-22: the `beforeRelease` hook, whose `false` cancels the run. */
  method AskBeforeRelease(env: ReleaseEnv, fails: set<nat>, ghost p: Plan)
    returns (after: seq<Effect>, stopped: Option<Outcome>)
    requires ReleaseVetoed(env) ==> p.effects == ReleaseGate(env) && p.end == Cancelled
    requires ReleaseGate(env) <= p.effects
    ensures stopped.None? ==> !ReleaseVetoed(env)
    ensures PhaseDone(fails, p, [], ReleaseGate(env), p.effects[|ReleaseGate(env)|..], stopped, after)
  {
    after := [];
    stopped := None;
    ghost var todo := p.effects;
    if env.user.beforeRelease.Some? {
      var threw: bool;
      after, threw, todo := Call(p, after, Hook(BeforeRelease), fails, todo);
      if threw { return after, Some(Outcome(after, Failed(Threw(Hook(BeforeRelease))))); }
      if env.user.beforeRelease.value == ReturnedFalse {
        Finished(p, fails, after);
        return after, Some(Outcome(after, Cancelled));
      }
    }
  }

  /** The whole command (lines 5-78). */
  method Release(env: ReleaseEnv, fails: set<nat>) returns (o: Outcome)
    ensures o == ReleaseOutcome(env, fails)
  {
    ghost var p := ReleasePlan(env);
    var trace, stopped := AskBeforeRelease(env, fails, p);
    if stopped.Some? { return stopped.value; }
    if !IsSet(env.ci.repoOwner) || !IsSet(env.ci.repoName) {
      Finished(p, fails, trace);
      return Outcome(trace, Failed(MissingRepoConfig));
    }
    assert p.effects == trace + Publication(env);
    trace, stopped := Publish(env, fails, p, trace);
    if stopped.Some? { return stopped.value; }
    Finished(p, fails, trace);
    return Outcome(trace, Done);
  }
}
