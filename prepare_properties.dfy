/** What a `prepare` run does, stated about `PrepareOutcome` for every
    environment: which branches it names, which reconciliation path it takes,
    where it can be cancelled, what gates the commit, and what it sends to
    the forge. "Completes" below means that no call of the run throws an
    error that is not caught; the pull may still fail. */
module PrepareProperties {
  import opened Context
  import opened Effects
  import opened PrepareCommand

  /** Calls made past the `beforePrepare` gate. */
  predicate PastGate(e: Effect)
  {
    e.ReadFile? || e.WriteFile? || e.DiffSummary? || e.Add? || e.Commit? || e.Push? ||
    e.CreatePullRequest? || e == Hook(GetReleaseDescription) || e == Hook(AfterPrepare)
  }

  /** Every effect that names a branch names the two resolved ones. */
  predicate UsesBranches(e: Effect, pullRequestBranch: string, releaseBranch: string)
  {
    match e
    case Checkout(args) => args == [pullRequestBranch] || args == ["-B", pullRequestBranch, "--track"]
    case Pull(branch) => branch == pullRequestBranch
    case Merge(args) => args == MergeArgs(pullRequestBranch, releaseBranch)
    case Push(args) => args == ["-u", "origin", pullRequestBranch]
    case CreatePullRequest(_, _, _, _, _, source, target) => source == pullRequestBranch && target == releaseBranch
    case _ => true
  }

  lemma HookStepCount(configured: bool, hook: HookName, e: Effect)
    ensures multiset(HookStep(configured, hook))[e] == if configured && e == Hook(hook) then 1 else 0
  {
  }

  lemma PlanUsesBranches(env: PrepareEnv)
    ensures forall e :: e in PreparePlan(env).effects ==> UsesBranches(e, PullRequestBranch(env), ReleaseBranch(env))
  {
    var prb, rb := PullRequestBranch(env), ReleaseBranch(env);
    assert forall e :: e in Resolution(env) ==> UsesBranches(e, prb, rb);
    assert forall e :: e in Reconciliation(env) ==> UsesBranches(e, prb, rb);
    assert forall e :: e in ChangelogUpdate(env) ==> UsesBranches(e, prb, rb);
    assert forall e :: e in Finale(env) ==> UsesBranches(e, prb, rb);
    assert forall e :: e in PastReconciliation(env) ==> UsesBranches(e, prb, rb);
  }

  lemma ResolutionCount(env: PrepareEnv, e: Effect)
    ensures multiset(Resolution(env))[e] <= 1
  {
    HookStepCount(env.user.getPullRequestBranch.Some?, GetPullRequestBranch, e);
    HookStepCount(env.user.getReleaseBranch.Some?, GetReleaseBranch, e);
  }

  lemma PastReconciliationCount(env: PrepareEnv, h: HookName)
    requires h == GetPullRequestBranch || h == GetReleaseBranch
    ensures multiset(PastReconciliation(env))[Hook(h)] == 0
  {
    if !PrepareVetoed(env) {
      HookStepCount(env.user.beforePrepare.Some?, BeforePrepare, Hook(h));
      assert Hook(h) !in ChangelogUpdate(env);
      assert Hook(h) !in Finale(env);
      AbsentFromThree(PrepareGate(env), ChangelogUpdate(env), Finale(env), Hook(h));
    }
  }

  lemma AbsentFromThree(x: seq<Effect>, y: seq<Effect>, z: seq<Effect>, e: Effect)
    requires multiset(x)[e] == 0 && e !in y && e !in z
    ensures multiset(x + (y + z))[e] == 0
  {
  }

  lemma PlanCountsBranchHooks(env: PrepareEnv, h: HookName)
    requires h == GetPullRequestBranch || h == GetReleaseBranch
    ensures multiset(PreparePlan(env).effects)[Hook(h)] <= 1
  {
    ResolutionCount(env, Hook(h));
    PastReconciliationCount(env, h);
    assert multiset(Reconciliation(env))[Hook(h)] == 0;
  }

  /** The plan starts with the configured branch hooks. */
  lemma PlanStartsWithBranchHooks(env: PrepareEnv)
    ensures var p := PreparePlan(env).effects;
      |p| >= 2 &&
      (env.user.getPullRequestBranch.Some? ==> p[0] == Hook(GetPullRequestBranch)) &&
      (env.user.getReleaseBranch.Some? ==>
        p[if env.user.getPullRequestBranch.Some? then 1 else 0] == Hook(GetReleaseBranch))
  {
    var p := PreparePlan(env).effects;
    assert p == Resolution(env) + (Reconciliation(env) + PastReconciliation(env));
  }

  /** A configured branch hook is called: the first always, the second
      unless the first threw. */
  lemma BranchHooksCalled(env: PrepareEnv, fails: set<nat>)
    ensures env.user.getPullRequestBranch.Some? ==>
      multiset(PrepareOutcome(env, fails).trace)[Hook(GetPullRequestBranch)] == 1
    ensures env.user.getReleaseBranch.Some? && !(env.user.getPullRequestBranch.Some? && 0 in fails) ==>
      multiset(PrepareOutcome(env, fails).trace)[Hook(GetReleaseBranch)] == 1
  {
    var p := PreparePlan(env);
    var o := PrepareOutcome(env, fails);
    RunShape(p, fails);
    PlanStartsWithBranchHooks(env);
    if env.user.getPullRequestBranch.Some? {
      RunReaches(p, fails, 0);
      PlanCountsBranchHooks(env, GetPullRequestBranch);
      OnceInPrefix(o.trace, p.effects, Hook(GetPullRequestBranch));
    }
    if env.user.getReleaseBranch.Some? && !(env.user.getPullRequestBranch.Some? && 0 in fails) {
      var k := if env.user.getPullRequestBranch.Some? then 1 else 0;
      RunReaches(p, fails, k);
      PlanCountsBranchHooks(env, GetReleaseBranch);
      OnceInPrefix(o.trace, p.effects, Hook(GetReleaseBranch));
    }
  }

  /** Both branch names are resolved once, from the hook when it is
      configured and otherwise by default, and every call uses them. */
  lemma BranchNamesResolvedOnce(env: PrepareEnv, fails: set<nat>)
    ensures var o := PrepareOutcome(env, fails);
      multiset(o.trace)[Hook(GetPullRequestBranch)] <= 1 && multiset(o.trace)[Hook(GetReleaseBranch)] <= 1
    ensures env.user.getPullRequestBranch.Some? ==>
      multiset(PrepareOutcome(env, fails).trace)[Hook(GetPullRequestBranch)] == 1
    ensures env.user.getReleaseBranch.Some? && !(env.user.getPullRequestBranch.Some? && 0 in fails) ==>
      multiset(PrepareOutcome(env, fails).trace)[Hook(GetReleaseBranch)] == 1
    ensures var o := PrepareOutcome(env, fails);
      forall e :: e in o.trace ==> UsesBranches(e, PullRequestBranch(env), ReleaseBranch(env))
    ensures PullRequestBranch(env) ==
      if env.user.getPullRequestBranch.Some? then env.user.getPullRequestBranch.value else "next-release/" + env.nextVersion
    ensures ReleaseBranch(env) ==
      if env.user.getReleaseBranch.Some? then env.user.getReleaseBranch.value else "main"
  {
    var p := PreparePlan(env);
    var o := PrepareOutcome(env, fails);
    RunEmitsPlanned(p, fails);
    PrefixMultiset(o.trace, p.effects);
    PlanUsesBranches(env);
    PlanCountsBranchHooks(env, GetPullRequestBranch);
    PlanCountsBranchHooks(env, GetReleaseBranch);
    BranchHooksCalled(env, fails);
  }

  // ----- Branch reconciliation (lines 37-68) -----

  /** A git call of the reconciliation step. */
  predicate Reconciling(e: Effect)
  {
    e.Checkout? || e.Pull? || e.Merge?
  }

  lemma OnlyReconciliationReconciles(env: PrepareEnv)
    ensures forall e :: e in PreparePlan(env).effects && Reconciling(e) ==> e in Reconciliation(env)
  {
    assert forall e :: e in Resolution(env) ==> !Reconciling(e);
    assert forall e :: e in ChangelogUpdate(env) ==> !Reconciling(e);
    assert forall e :: e in Finale(env) ==> !Reconciling(e);
    assert forall e :: e in PastReconciliation(env) ==> !Reconciling(e);
  }

  /** The existing-branch path (checkout, pull, merge) is taken exactly when
      the branch list holds the remote-tracking ref of the pull-request
      branch; otherwise the branch is created with `-B … --track` and nothing
      is pulled or merged. */
  lemma ReconciliationPath(env: PrepareEnv, fails: set<nat>)
    ensures var o := PrepareOutcome(env, fails);
      forall e :: e in o.trace && (e.Pull? || e.Merge?) ==> BranchExists(env)
    ensures var o := PrepareOutcome(env, fails);
      forall e :: e in o.trace && e.Checkout? ==>
        e.args == if BranchExists(env) then [PullRequestBranch(env)] else ["-B", PullRequestBranch(env), "--track"]
  {
    RunEmitsPlanned(PreparePlan(env), fails);
    OnlyReconciliationReconciles(env);
  }

  /** Without errors, the branch list comes first, and the reconciliation's
      calls follow it in the order of their path. */
  lemma ReconciliationOrder(env: PrepareEnv, fails: set<nat>)
    requires Completes(PreparePlan(env), fails)
    ensures var o, r := PrepareOutcome(env, fails), |Resolution(env)|;
      var prb, rb := PullRequestBranch(env), ReleaseBranch(env);
      r + |Reconciliation(env)| <= |o.trace| && o.trace[r - 1] == ListBranches &&
      (BranchExists(env) ==> o.trace[r..r + 3] == [Checkout([prb]), Pull(prb), Merge(MergeArgs(prb, rb))]) &&
      (!BranchExists(env) ==> o.trace[r] == Checkout(["-B", prb, "--track"]))
  {
    var p := PreparePlan(env);
    var o := PrepareOutcome(env, fails);
    var r := |Resolution(env)|;
    RunCompletes(p, fails);
    assert p.effects == Resolution(env) + (Reconciliation(env) + PastReconciliation(env));
    assert o.trace[r - 1] == Resolution(env)[r - 1];
    assert o.trace[r..r + |Reconciliation(env)|] == Reconciliation(env);
  }

  /** With no branch hook, version 1.2.0 and the remote-tracking ref of
      next-release/1.2.0 in the list, the existing-branch path is taken; with
      an empty list, the branch is created and nothing is merged. */
  lemma ReconciliationScenarios(env: PrepareEnv)
    requires env.nextVersion == "1.2.0" && env.user.getPullRequestBranch.None?
    ensures env.branches == ["remotes/origin/next-release/1.2.0"] ==>
      Reconciliation(env) == [Checkout(["next-release/1.2.0"]), Pull("next-release/1.2.0"),
                              Merge(MergeArgs("next-release/1.2.0", ReleaseBranch(env)))]
    ensures env.branches == [] ==>
      Reconciliation(env) == [Checkout(["-B", "next-release/1.2.0", "--track"])]
  {
    assert PullRequestBranch(env) == "next-release/1.2.0";
    assert RemoteRef(PullRequestBranch(env)) == "remotes/origin/next-release/1.2.0";
  }

  /** Whether the pull throws makes no difference to the run: the error is
      caught and the merge is still attempted. */
  lemma PullFailureSwallowed(env: PrepareEnv, fails: set<nat>, i: nat)
    requires i < |PreparePlan(env).effects| && PreparePlan(env).effects[i].Pull?
    ensures PrepareOutcome(env, fails + {i}) == PrepareOutcome(env, fails - {i})
  {
    RunIgnoresPullFailures(PreparePlan(env), fails + {i}, fails - {i});
  }

  /** A merge that throws ends the run as failed, right after the checkout
      and the pull: nothing past the reconciliation happens. */
  lemma MergeFailureEndsRun(env: PrepareEnv, fails: set<nat>)
    requires BranchExists(env)
    requires |Resolution(env)| + 2 in fails
    requires NoFatalBefore(PreparePlan(env).effects, fails, |Resolution(env)| + 2)
    ensures var prb, rb := PullRequestBranch(env), ReleaseBranch(env);
      PrepareOutcome(env, fails) ==
        Outcome(Resolution(env) + [Checkout([prb]), Pull(prb), Merge(MergeArgs(prb, rb))],
                Failed(Threw(Merge(MergeArgs(prb, rb)))))
  {
    var p := PreparePlan(env);
    var k := |Resolution(env)| + 2;
    assert p.effects == Resolution(env) + (Reconciliation(env) + PastReconciliation(env));
    assert p.effects[k] == Reconciliation(env)[2];
    RunStopsAt(p, fails, k);
    assert p.effects[..k + 1] == Resolution(env) + Reconciliation(env);
  }

  // ----- The beforePrepare gate (lines 70-77) -----

  lemma VetoedPlan(env: PrepareEnv)
    requires PrepareVetoed(env)
    ensures PreparePlan(env).effects == Resolution(env) + Reconciliation(env) + [Hook(BeforePrepare)]
    ensures forall e :: e in PreparePlan(env).effects ==> !PastGate(e)
  {
    assert forall e :: e in Resolution(env) ==> !PastGate(e);
    assert forall e :: e in Reconciliation(env) ==> !PastGate(e);
  }

  lemma UnvetoedPlan(env: PrepareEnv)
    requires !PrepareVetoed(env)
    ensures PreparePlan(env).effects == Resolution(env) + (Reconciliation(env) + (PrepareGate(env) + (ChangelogUpdate(env) + Finale(env))))
  {
  }

  /** `beforePrepare` returning `false` cancels the run after the branch has
      been reconciled and before anything is read, written, committed, pushed
      or sent to the forge; any other answer lets the run go on to rewrite
      the changelog. A run ends cancelled in no other way. */
  lemma BeforePrepareGate(env: PrepareEnv, fails: set<nat>)
    ensures var o := PrepareOutcome(env, fails);
      o.status == Cancelled <==> PrepareVetoed(env) && Completes(PreparePlan(env), fails)
    ensures PrepareVetoed(env) ==> forall e :: e in PrepareOutcome(env, fails).trace ==> !PastGate(e)
    ensures PrepareVetoed(env) && Completes(PreparePlan(env), fails) ==>
      PrepareOutcome(env, fails).trace == Resolution(env) + Reconciliation(env) + [Hook(BeforePrepare)]
    ensures !PrepareVetoed(env) && Completes(PreparePlan(env), fails) ==>
      WriteFile(ChangelogPath, Changelog(env)) in PrepareOutcome(env, fails).trace
  {
    var p := PreparePlan(env);
    RunEmitsPlanned(p, fails);
    if PrepareVetoed(env) {
      VetoedPlan(env);
    } else {
      UnvetoedPlan(env);
      assert ChangelogUpdate(env)[1] == WriteFile(ChangelogPath, Changelog(env));
    }
  }

  // ----- The changelog rewrite (lines 79-88) -----

  /** Read, write, diff query, then calls that write nothing: the write is
      the only one, once, between the read and the query. */
  lemma WriteBetween(s: seq<Effect>, read: Effect, write: Effect, query: Effect, c: seq<Effect>)
    requires s == [read, write, query] + c
    requires write.WriteFile? && !read.WriteFile? && !query.WriteFile? && forall e :: e in c ==> !e.WriteFile?
    ensures Before(s, read, write) && Before(s, write, query) && multiset(s)[write] == 1
    ensures forall e :: e in s && e.WriteFile? ==> e == write
  {
    assert s[0] == read && s[1] == write && s[2] == query;
    assert write !in c;
    assert multiset(s) == multiset([read, write, query]) + multiset(c);
  }

  lemma ChangelogUpdateOrder(env: PrepareEnv)
    ensures var u, read, write := ChangelogUpdate(env), ReadFile(ChangelogPath), WriteFile(ChangelogPath, Changelog(env));
      Before(u, read, write) && Before(u, write, DiffSummary(["--cached"])) && multiset(u)[write] == 1
    ensures forall e :: e in ChangelogUpdate(env) && e.WriteFile? ==> e == WriteFile(ChangelogPath, Changelog(env))
  {
    WriteBetween(ChangelogUpdate(env), ReadFile(ChangelogPath), WriteFile(ChangelogPath, Changelog(env)),
                 DiffSummary(["--cached"]), CommitAndPush(env));
  }


  lemma NoWriteOutsideChangelogUpdate(env: PrepareEnv)
    ensures forall e :: e in Finale(env) ==> !e.WriteFile? && !e.DiffSummary?
    ensures forall e :: e in Resolution(env) ==> !e.WriteFile? && !e.DiffSummary?
    ensures forall e :: e in Reconciliation(env) ==> !e.WriteFile? && !e.DiffSummary?
    ensures forall e :: e in PrepareGate(env) ==> !e.WriteFile? && !e.DiffSummary?
  {
  }

  /** Lifts an ordering fact about the changelog update to the plan. */
  lemma UpdateOrderInPlan(env: PrepareEnv, a: Effect, b: Effect)
    requires !PrepareVetoed(env) && Before(ChangelogUpdate(env), a, b)
    ensures Before(PreparePlan(env).effects, a, b)
  {
    UnvetoedPlan(env);
    BeforeLeft(ChangelogUpdate(env), Finale(env), a, b);
    BeforeRight(PrepareGate(env), ChangelogUpdate(env) + Finale(env), a, b);
    BeforeRight(Reconciliation(env), PrepareGate(env) + (ChangelogUpdate(env) + Finale(env)), a, b);
    BeforeRight(Resolution(env), Reconciliation(env) + (PrepareGate(env) + (ChangelogUpdate(env) + Finale(env))), a, b);
  }

  lemma OnceInFourth(a: seq<Effect>, b: seq<Effect>, c: seq<Effect>, y: seq<Effect>, z: seq<Effect>, e: Effect)
    requires e !in a && e !in b && e !in c && multiset(y)[e] == 1 && e !in z
    ensures multiset(a + (b + (c + (y + z))))[e] == 1
  {
    assert multiset(a)[e] == 0 && multiset(b)[e] == 0 && multiset(c)[e] == 0 && multiset(z)[e] == 0;
  }

  /** An effect occurring once in the changelog update and nowhere else
      occurs once in the plan. */
  lemma OnceInPlan(env: PrepareEnv, e: Effect)
    requires !PrepareVetoed(env) && multiset(ChangelogUpdate(env))[e] == 1
    requires e !in Resolution(env) && e !in Reconciliation(env) && e !in PrepareGate(env) && e !in Finale(env)
    ensures multiset(PreparePlan(env).effects)[e] == 1
  {
    UnvetoedPlan(env);
    OnceInFourth(Resolution(env), Reconciliation(env), PrepareGate(env), ChangelogUpdate(env), Finale(env), e);
  }

  lemma PlanWritesChangelog(env: PrepareEnv)
    requires !PrepareVetoed(env)
    ensures multiset(PreparePlan(env).effects)[WriteFile(ChangelogPath, Changelog(env))] == 1
    ensures forall e :: e in PreparePlan(env).effects && e.WriteFile? ==> e == WriteFile(ChangelogPath, Changelog(env))
  {
    ChangelogUpdateOrder(env);
    NoWriteOutsideChangelogUpdate(env);
    OnceInPlan(env, WriteFile(ChangelogPath, Changelog(env)));
    UnvetoedPlan(env);
  }

  lemma PlanDiffsOnce(env: PrepareEnv)
    requires !PrepareVetoed(env)
    ensures multiset(PreparePlan(env).effects)[DiffSummary(["--cached"])] == 1
  {
    var u, diff := ChangelogUpdate(env), DiffSummary(["--cached"]);
    assert multiset(u)[diff] == 1 by {
      assert u == [ReadFile(ChangelogPath), WriteFile(ChangelogPath, Changelog(env)), diff] + CommitAndPush(env);
    }
    NoWriteOutsideChangelogUpdate(env);
    OnceInPlan(env, diff);
  }

  lemma PlanChangelogOrder(env: PrepareEnv)
    requires !PrepareVetoed(env)
    ensures var p, write := PreparePlan(env).effects, WriteFile(ChangelogPath, Changelog(env));
      Before(p, ReadFile(ChangelogPath), write) && Before(p, write, DiffSummary(["--cached"]))
  {
    ChangelogUpdateOrder(env);
    UpdateOrderInPlan(env, ReadFile(ChangelogPath), WriteFile(ChangelogPath, Changelog(env)));
    UpdateOrderInPlan(env, WriteFile(ChangelogPath, Changelog(env)), DiffSummary(["--cached"]));
  }

  /** The changelog is written once, with the heading, the new section and the
      old content in that order, after it was read and before the staged
      diff is queried; a run that gets past the gate without an error always
      writes it, whatever is staged. */
  lemma ChangelogRewrite(env: PrepareEnv, fails: set<nat>)
    ensures Changelog(env) == ChangelogHeading + env.changelogSection + "\n\n" + env.oldChangelog
    ensures var o := PrepareOutcome(env, fails);
      forall e :: e in o.trace && e.WriteFile? ==> e == WriteFile(ChangelogPath, Changelog(env)) && !PrepareVetoed(env)
    ensures var o, write := PrepareOutcome(env, fails), WriteFile(ChangelogPath, Changelog(env));
      write in o.trace ==>
        multiset(o.trace)[write] == 1 && Before(o.trace, ReadFile(ChangelogPath), write) &&
        (DiffSummary(["--cached"]) in o.trace ==> Before(o.trace, write, DiffSummary(["--cached"])))
    ensures !PrepareVetoed(env) && Completes(PreparePlan(env), fails) ==>
      WriteFile(ChangelogPath, Changelog(env)) in PrepareOutcome(env, fails).trace
  {
    var p := PreparePlan(env);
    var o := PrepareOutcome(env, fails);
    var write := WriteFile(ChangelogPath, Changelog(env));
    RunEmitsPlanned(p, fails);
    BeforePrepareGate(env, fails);
    if !PrepareVetoed(env) {
      PlanWritesChangelog(env);
      PlanDiffsOnce(env);
      PlanChangelogOrder(env);
      if write in o.trace {
        OnceInPrefix(o.trace, p.effects, write);
        BeforeInPrefix(o.trace, p.effects, ReadFile(ChangelogPath), write);
        if DiffSummary(["--cached"]) in o.trace {
          BeforeInPrefix(o.trace, p.effects, write, DiffSummary(["--cached"]));
        }
      }
    }
  }

  // ----- Commit and push, gated by the staged diff (lines 90-95) -----

  /** A call that changes the repository's history. */
  predicate Committing(e: Effect)
  {
    e.Add? || e.Commit? || e.Push?
  }

  lemma NoCommitOutsideChangelogUpdate(env: PrepareEnv)
    ensures forall e :: e in Resolution(env) ==> !Committing(e)
    ensures forall e :: e in Reconciliation(env) ==> !Committing(e)
    ensures forall e :: e in PrepareGate(env) ==> !Committing(e)
    ensures forall e :: e in Finale(env) ==> !Committing(e)
  {
  }

  lemma CommitsInChangelogUpdate(env: PrepareEnv)
    ensures forall e :: e in ChangelogUpdate(env) && Committing(e) ==>
      env.stagedFiles > 0 &&
      (e == Add(".") || e == Commit(ReleaseTitle(env.nextVersion)) || e == Push(PushArgs(PullRequestBranch(env))))
  {
    assert ChangelogUpdate(env) ==
      [ReadFile(ChangelogPath), WriteFile(ChangelogPath, Changelog(env)), DiffSummary(["--cached"])] + CommitAndPush(env);
  }

  lemma CommitOrderInChangelogUpdate(env: PrepareEnv)
    requires env.stagedFiles > 0
    ensures var u, add, commit, push := ChangelogUpdate(env), Add("."),
                                        Commit(ReleaseTitle(env.nextVersion)), Push(PushArgs(PullRequestBranch(env)));
      Before(u, DiffSummary(["--cached"]), add) && Before(u, add, commit) && Before(u, commit, push)
  {
    var u := ChangelogUpdate(env);
    assert u[2] == DiffSummary(["--cached"]) && u[3] == Add(".") && u[4] == Commit(ReleaseTitle(env.nextVersion));
    assert u[5] == Push(PushArgs(PullRequestBranch(env)));
  }

  lemma CommitsOnceInChangelogUpdate(env: PrepareEnv, e: Effect)
    requires env.stagedFiles > 0
    requires e == Add(".") || e == Commit(ReleaseTitle(env.nextVersion)) || e == Push(PushArgs(PullRequestBranch(env)))
    ensures multiset(ChangelogUpdate(env))[e] == 1
  {
    var head := [ReadFile(ChangelogPath), WriteFile(ChangelogPath, Changelog(env)), DiffSummary(["--cached"])];
    assert ChangelogUpdate(env) == head + CommitAndPush(env);
    assert e !in head;
  }

  /** In the plan, the staged diff precedes `add`, `add` precedes the commit
      and the commit precedes the push, each of them once. */
  lemma PlanCommitOrder(env: PrepareEnv)
    requires !PrepareVetoed(env) && env.stagedFiles > 0
    ensures var p, add, commit, push := PreparePlan(env).effects, Add("."),
                                        Commit(ReleaseTitle(env.nextVersion)), Push(PushArgs(PullRequestBranch(env)));
      Before(p, DiffSummary(["--cached"]), add) && Before(p, add, commit) && Before(p, commit, push) &&
      multiset(p)[add] == 1 && multiset(p)[commit] == 1 && multiset(p)[push] == 1
  {
    var add, commit, push := Add("."), Commit(ReleaseTitle(env.nextVersion)), Push(PushArgs(PullRequestBranch(env)));
    CommitOrderInChangelogUpdate(env);
    CommitsOnceInChangelogUpdate(env, add);
    CommitsOnceInChangelogUpdate(env, commit);
    CommitsOnceInChangelogUpdate(env, push);
    NoCommitOutsideChangelogUpdate(env);
    OnceInPlan(env, add);
    OnceInPlan(env, commit);
    OnceInPlan(env, push);
    UpdateOrderInPlan(env, DiffSummary(["--cached"]), add);
    UpdateOrderInPlan(env, add, commit);
    UpdateOrderInPlan(env, commit, push);
  }

  lemma PlanCommits(env: PrepareEnv)
    ensures forall e :: e in PreparePlan(env).effects && Committing(e) ==>
      env.stagedFiles > 0 && !PrepareVetoed(env) &&
      (e == Add(".") || e == Commit(ReleaseTitle(env.nextVersion)) || e == Push(PushArgs(PullRequestBranch(env))))
  {
    if PrepareVetoed(env) {
      VetoedPlan(env);
    } else {
      UnvetoedPlan(env);
      NoCommitOutsideChangelogUpdate(env);
      CommitsInChangelogUpdate(env);
    }
  }

  /** Files are added, committed as "🎉 Release <version>" and pushed to the
      pull-request branch only when the staged diff, queried before `add`,
      lists a file; then always in that order, and all three when nothing
      throws. */
  lemma CommitGatedByStagedDiff(env: PrepareEnv, fails: set<nat>)
    ensures var o := PrepareOutcome(env, fails);
      forall e :: e in o.trace && Committing(e) ==>
        env.stagedFiles > 0 && !PrepareVetoed(env) &&
        (e == Add(".") || e == Commit(ReleaseTitle(env.nextVersion)) || e == Push(PushArgs(PullRequestBranch(env))))
    ensures var o, add, commit, push := PrepareOutcome(env, fails), Add("."),
                                        Commit(ReleaseTitle(env.nextVersion)), Push(PushArgs(PullRequestBranch(env)));
      (add in o.trace ==> Before(o.trace, DiffSummary(["--cached"]), add)) &&
      (commit in o.trace ==> Before(o.trace, add, commit)) &&
      (push in o.trace ==> Before(o.trace, commit, push))
    ensures env.stagedFiles > 0 && !PrepareVetoed(env) && Completes(PreparePlan(env), fails) ==>
      var o := PrepareOutcome(env, fails);
      Commit(ReleaseTitle(env.nextVersion)) in o.trace && Push(PushArgs(PullRequestBranch(env))) in o.trace
  {
    var p := PreparePlan(env);
    var o := PrepareOutcome(env, fails);
    var add, commit, push := Add("."), Commit(ReleaseTitle(env.nextVersion)), Push(PushArgs(PullRequestBranch(env)));
    RunEmitsPlanned(p, fails);
    PlanCommits(env);
    if env.stagedFiles > 0 && !PrepareVetoed(env) {
      PlanCommitOrder(env);
      if add in o.trace { BeforeInPrefix(o.trace, p.effects, DiffSummary(["--cached"]), add); }
      if commit in o.trace { BeforeInPrefix(o.trace, p.effects, add, commit); }
      if push in o.trace { BeforeInPrefix(o.trace, p.effects, commit, push); }
    }
  }

  // ----- The pull request (lines 97-119) -----

  /** A call made only when the repository is configured. */
  predicate ForgeStep(e: Effect)
  {
    e.CreatePullRequest? || e == Hook(GetReleaseDescription) || e == Hook(AfterPrepare)
  }

  lemma NoForgeStepBeforeFinale(env: PrepareEnv)
    ensures forall e :: e in Resolution(env) ==> !ForgeStep(e)
    ensures forall e :: e in Reconciliation(env) ==> !ForgeStep(e)
    ensures forall e :: e in PrepareGate(env) ==> !ForgeStep(e)
    ensures forall e :: e in ChangelogUpdate(env) ==> !ForgeStep(e)
  {
  }

  lemma PlanForgeSteps(env: PrepareEnv)
    ensures forall e :: e in PreparePlan(env).effects && ForgeStep(e) ==> HasRepository(env.ci) && !PrepareVetoed(env) && e in Finale(env)
  {
    if PrepareVetoed(env) {
      VetoedPlan(env);
    } else {
      UnvetoedPlan(env);
      NoForgeStepBeforeFinale(env);
    }
  }

  /** Without a repository owner and name the run never reaches the forge:
      when nothing throws before, it fails right after the changelog update,
      commit and push included. */
  lemma MissingRepoConfigPrepare(env: PrepareEnv, fails: set<nat>)
    requires !HasRepository(env.ci)
    ensures forall e :: e in PrepareOutcome(env, fails).trace ==> !ForgeStep(e)
    ensures PrepareOutcome(env, fails).status != Done
    ensures !PrepareVetoed(env) && Completes(PreparePlan(env), fails) ==>
      PrepareOutcome(env, fails) ==
        Outcome(Resolution(env) + (Reconciliation(env) + (PrepareGate(env) + ChangelogUpdate(env))), Failed(MissingRepoConfig))
  {
    var p := PreparePlan(env);
    RunEmitsPlanned(p, fails);
    PlanForgeSteps(env);
    if !PrepareVetoed(env) {
      UnvetoedPlan(env);
      assert ChangelogUpdate(env) + Finale(env) == ChangelogUpdate(env);
    }
  }

  /** The finale is the description hook step, the pull request, then the
      `afterPrepare` hook step. */
  lemma FinaleLayout(env: PrepareEnv)
    requires HasRepository(env.ci)
    ensures Finale(env) == HookStep(env.user.getReleaseDescription.Some?, GetReleaseDescription) +
      ([ExpectedPullRequest(env)] + HookStep(env.user.afterPrepare, AfterPrepare))
  {
  }

  lemma FinaleInPlan(env: PrepareEnv)
    requires HasRepository(env.ci) && !PrepareVetoed(env)
    ensures PreparePlan(env).effects == (Resolution(env) + (Reconciliation(env) + (PrepareGate(env) + ChangelogUpdate(env)))) + Finale(env)
  {
    UnvetoedPlan(env);
    Regroup(Resolution(env), Reconciliation(env), PrepareGate(env), ChangelogUpdate(env), Finale(env));
  }

  lemma Regroup(a: seq<Effect>, b: seq<Effect>, c: seq<Effect>, d: seq<Effect>, f: seq<Effect>)
    ensures a + (b + (c + (d + f))) == (a + (b + (c + d))) + f
  {
  }

  lemma NothingForgeBeforeFinale(env: PrepareEnv)
    ensures forall e :: e in Resolution(env) + (Reconciliation(env) + (PrepareGate(env) + ChangelogUpdate(env))) ==> !ForgeStep(e)
  {
    NoForgeStepBeforeFinale(env);
  }

  /** After a stretch without forge calls, a description hook step, a pull
      request and an `afterPrepare` step: the pull request is the only one,
      once, and follows the description hook. */
  lemma PullRequestInLayout(s: seq<Effect>, x: seq<Effect>, d: seq<Effect>, pr: Effect, a: seq<Effect>)
    requires s == x + (d + ([pr] + a))
    requires forall e :: e in x ==> !ForgeStep(e)
    requires forall e :: e in d ==> e == Hook(GetReleaseDescription)
    requires forall e :: e in a ==> e == Hook(AfterPrepare)
    requires pr.CreatePullRequest?
    ensures multiset(s)[pr] == 1 && (forall e :: e in s && e.CreatePullRequest? ==> e == pr) &&
      (Hook(GetReleaseDescription) in d ==> Before(s, Hook(GetReleaseDescription), pr))
  {
    assert pr !in x && pr !in d && pr !in a;
    assert multiset(x)[pr] == 0 && multiset(d)[pr] == 0 && multiset(a)[pr] == 0;
    assert s == (x + d) + [pr] + a;
    if Hook(GetReleaseDescription) in d {
      BeforeAcross(d, [pr] + a, Hook(GetReleaseDescription), pr);
      BeforeRight(x, d + ([pr] + a), Hook(GetReleaseDescription), pr);
    }
  }

  /** In the same layout, `afterPrepare` occurs at most once, exactly when its
      step is there, and then last and after the pull request. */
  lemma AfterPrepareInLayout(s: seq<Effect>, x: seq<Effect>, d: seq<Effect>, pr: Effect, configured: bool)
    requires s == x + (d + ([pr] + HookStep(configured, AfterPrepare)))
    requires forall e :: e in x ==> !ForgeStep(e)
    requires forall e :: e in d ==> e == Hook(GetReleaseDescription)
    requires pr.CreatePullRequest?
    ensures Hook(AfterPrepare) in s <==> configured
    ensures configured ==>
      Before(s, pr, Hook(AfterPrepare)) && s[|s| - 1] == Hook(AfterPrepare) && Hook(AfterPrepare) !in s[..|s| - 1]
  {
    var a := HookStep(configured, AfterPrepare);
    var h := Hook(AfterPrepare);
    var y := x + (d + [pr]);
    assert x + (d + ([pr] + a)) == y + a;
    assert h !in y;
    if a != [] {
      assert s[..|s| - 1] == y;
      assert y[|y| - 1] == pr;
      BeforeAcross(y, a, pr, h);
    }
  }

  /** Past the gate, with the repository configured: what the plan holds
      before the finale, then the finale's three parts. */
  lemma PlanLayout(env: PrepareEnv)
    requires HasRepository(env.ci) && !PrepareVetoed(env)
    ensures PreparePlan(env).effects ==
      (Resolution(env) + (Reconciliation(env) + (PrepareGate(env) + ChangelogUpdate(env)))) +
      (HookStep(env.user.getReleaseDescription.Some?, GetReleaseDescription) +
      ([ExpectedPullRequest(env)] + HookStep(env.user.afterPrepare, AfterPrepare)))
  {
    FinaleInPlan(env);
    FinaleLayout(env);
  }

  /** In the plan, the pull request is created once, and after the
      description hook when that is configured. */
  lemma PlanPullRequest(env: PrepareEnv)
    requires HasRepository(env.ci) && !PrepareVetoed(env)
    ensures var p, pr := PreparePlan(env).effects, ExpectedPullRequest(env);
      multiset(p)[pr] == 1 && (forall e :: e in p && e.CreatePullRequest? ==> e == pr) &&
      (env.user.getReleaseDescription.Some? ==> Before(p, Hook(GetReleaseDescription), pr))
  {
    var x := Resolution(env) + (Reconciliation(env) + (PrepareGate(env) + ChangelogUpdate(env)));
    var d, pr, a := HookStep(env.user.getReleaseDescription.Some?, GetReleaseDescription), ExpectedPullRequest(env),
                    HookStep(env.user.afterPrepare, AfterPrepare);
    PlanLayout(env);
    NothingForgeBeforeFinale(env);
    PullRequestInLayout(PreparePlan(env).effects, x, d, pr, a);
  }

  /** `afterPrepare` is in the plan exactly when configured. */
  lemma PlanAfterPrepare(env: PrepareEnv)
    requires HasRepository(env.ci) && !PrepareVetoed(env)
    ensures var p := PreparePlan(env).effects;
      Hook(AfterPrepare) in p <==> env.user.afterPrepare
  {
    var x := Resolution(env) + (Reconciliation(env) + (PrepareGate(env) + ChangelogUpdate(env)));
    var d, pr := HookStep(env.user.getReleaseDescription.Some?, GetReleaseDescription), ExpectedPullRequest(env);
    PlanLayout(env);
    NothingForgeBeforeFinale(env);
    AfterPrepareInLayout(PreparePlan(env).effects, x, d, pr, env.user.afterPrepare);
  }

  /** When configured, `afterPrepare` is the plan's last call and only there,
      after the pull request. */
  lemma PlanEndsWithAfterPrepare(env: PrepareEnv)
    requires HasRepository(env.ci) && !PrepareVetoed(env) && env.user.afterPrepare
    ensures var p := PreparePlan(env).effects;
      Before(p, ExpectedPullRequest(env), Hook(AfterPrepare)) && p[|p| - 1] == Hook(AfterPrepare) &&
      Hook(AfterPrepare) !in p[..|p| - 1]
  {
    var x := Resolution(env) + (Reconciliation(env) + (PrepareGate(env) + ChangelogUpdate(env)));
    var d, pr := HookStep(env.user.getReleaseDescription.Some?, GetReleaseDescription), ExpectedPullRequest(env);
    PlanLayout(env);
    NothingForgeBeforeFinale(env);
    AfterPrepareInLayout(PreparePlan(env).effects, x, d, pr, env.user.afterPrepare);
  }

  /** The pull request is created once, as a draft titled "🎉 Release
      <version>" from the pull-request branch into the release branch, with
      the hook's description or else the whole new changelog, after the
      description hook. */
  lemma PullRequestCall(env: PrepareEnv, fails: set<nat>)
    ensures PullRequestDescription(env) ==
      if env.user.getReleaseDescription.Some? then env.user.getReleaseDescription.value else Changelog(env)
    ensures var o := PrepareOutcome(env, fails);
      forall e :: e in o.trace && e.CreatePullRequest? ==>
        HasRepository(env.ci) && !PrepareVetoed(env) && e == ExpectedPullRequest(env) && multiset(o.trace)[e] == 1 &&
        (env.user.getReleaseDescription.Some? ==> Before(o.trace, Hook(GetReleaseDescription), e))
  {
    var p := PreparePlan(env);
    var o := PrepareOutcome(env, fails);
    RunEmitsPlanned(p, fails);
    PlanForgeSteps(env);
    if HasRepository(env.ci) && !PrepareVetoed(env) {
      var pr := ExpectedPullRequest(env);
      PlanPullRequest(env);
      if pr in o.trace {
        OnceInPrefix(o.trace, p.effects, pr);
        if env.user.getReleaseDescription.Some? {
          BeforeInPrefix(o.trace, p.effects, Hook(GetReleaseDescription), pr);
        }
      }
    }
  }

  /** A call that occurs in a plan only as its last call is made only by
      a run that carries out the whole plan. */
  lemma LastCallEndsRun(p: Plan, fails: set<nat>, a: Effect, e: Effect)
    requires |p.effects| > 0 && p.effects[|p.effects| - 1] == e && e !in p.effects[..|p.effects| - 1] && Before(p.effects, a, e)
    ensures e in Run(p, fails).trace ==> Run(p, fails).trace == p.effects
  {
    RunShape(p, fails);
    if e in Run(p, fails).trace {
      OnlyAtEnd(Run(p, fails).trace, p.effects, e);
    }
  }

  /** `afterPrepare` runs only after the pull request was created, as the
      last call of the run. */
  lemma AfterPrepareLast(env: PrepareEnv, fails: set<nat>)
    ensures var o := PrepareOutcome(env, fails);
      Hook(AfterPrepare) in o.trace ==>
        HasRepository(env.ci) && env.user.afterPrepare && Before(o.trace, ExpectedPullRequest(env), Hook(AfterPrepare)) &&
        o.trace == PreparePlan(env).effects && o.trace[|o.trace| - 1] == Hook(AfterPrepare)
  {
    var p := PreparePlan(env);
    RunEmitsPlanned(p, fails);
    PlanForgeSteps(env);
    if Hook(AfterPrepare) in Run(p, fails).trace {
      PlanAfterPrepare(env);
      PlanEndsWithAfterPrepare(env);
      LastCallEndsRun(p, fails, ExpectedPullRequest(env), Hook(AfterPrepare));
    }
  }

  /** A run is done exactly when the repository is configured, the gate lets
      it through and nothing throws; it has then created the pull request and
      run `afterPrepare` if that hook is configured. */
  lemma PrepareDone(env: PrepareEnv, fails: set<nat>)
    ensures PrepareOutcome(env, fails).status == Done <==>
      HasRepository(env.ci) && !PrepareVetoed(env) && Completes(PreparePlan(env), fails)
    ensures HasRepository(env.ci) && !PrepareVetoed(env) && Completes(PreparePlan(env), fails) ==>
      var o := PrepareOutcome(env, fails);
      ExpectedPullRequest(env) in o.trace && (Hook(AfterPrepare) in o.trace <==> env.user.afterPrepare)
  {
    var p := PreparePlan(env);
    RunEmitsPlanned(p, fails);
    if HasRepository(env.ci) && !PrepareVetoed(env) {
      PlanPullRequest(env);
      PlanAfterPrepare(env);
    }
  }
}
