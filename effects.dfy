/** The external effects a release command performs, and how a run of them
    ends.

    A run is described twice. Its PLAN is the sequence of calls the command
    would make if no call threw, together with the status it would end in;
    `Run` then cuts the plan at the first call that throws an error the
    command does not catch. The imperative methods in PrepareCommand and
    ReleaseCommand follow the source's control flow call by call and are
    proved to produce exactly `Run(plan, fails)`. */
module Effects {
  import opened Context

  datatype HookName =
    | GetPullRequestBranch | GetReleaseBranch
    | BeforePrepare | AfterPrepare
    | BeforeRelease | AfterRelease
    | GetReleaseDescription

  /** One call into a hook, git, the file system or the forge, with its arguments. */
  datatype Effect =
    | Hook(hook: HookName)
    | ListBranches                                   // git.branch()
    | Checkout(args: seq<string>)
    | Pull(branch: string)
    | Merge(args: seq<string>)
    | ReadFile(path: string)
    | WriteFile(path: string, content: string)
    | DiffSummary(args: seq<string>)
    | Add(path: string)
    | Commit(message: string)
    | Push(args: seq<string>)
    | CreatePullRequest(owner: string, repo: string, title: string, description: string,
                        draft: bool, sourceBranch: string, targetBranch: string)
    | CreateRelease(owner: string, repo: string, tag: string, description: string, name: string)
    | AddComment(owner: string, repo: string, pullRequestNumber: int, comment: string)

  datatype Cause = Threw(effect: Effect) | MissingRepoConfig

  datatype Status = Done | Cancelled | Failed(cause: Cause)

  /** The calls a run made, in order, and how it ended. */
  datatype Outcome = Outcome(trace: seq<Effect>, status: Status)

  /** The calls a run makes when none of them throws, and how it then ends. */
  datatype Plan = Plan(effects: seq<Effect>, end: Status)

  /** The call at position `i` of a run throws and nothing catches it: every
      thrown error is fatal except that of `git.pull`, which is caught. */
  predicate Fatal(effects: seq<Effect>, fails: set<nat>, i: nat)
    requires i < |effects|
  {
    i in fails && !effects[i].Pull?
  }

  /** None of the first `n` calls ends the run. */
  predicate NoFatalBefore(effects: seq<Effect>, fails: set<nat>, n: nat)
  {
    forall i: nat :: i < n && i < |effects| ==> !Fatal(effects, fails, i)
  }

  /** No call of the plan ends the run early. */
  predicate Completes(p: Plan, fails: set<nat>)
  {
    NoFatalBefore(p.effects, fails, |p.effects|)
  }

  function RunFrom(p: Plan, fails: set<nat>, i: nat): Outcome
    requires i <= |p.effects|
    decreases |p.effects| - i
  {
    if i == |p.effects| then Outcome(p.effects, p.end)
    else if Fatal(p.effects, fails, i) then Outcome(p.effects[..i + 1], Failed(Threw(p.effects[i])))
    else RunFrom(p, fails, i + 1)
  }

  /** The outcome of carrying out plan `p` when the calls at the positions in
      `fails` throw. */
  function Run(p: Plan, fails: set<nat>): Outcome
  {
    RunFrom(p, fails, 0)
  }

  /** `b` happens after `a` in `s`. */
  predicate Before(s: seq<Effect>, a: Effect, b: Effect)
  {
    exists i, j :: 0 <= i < j < |s| && s[i] == a && s[j] == b
  }

  // ----- Run cuts the plan at the first fatal call, and only there -----

  lemma {:induction false} RunSkips(p: Plan, fails: set<nat>, i: nat)
    requires i <= |p.effects| && NoFatalBefore(p.effects, fails, i)
    ensures Run(p, fails) == RunFrom(p, fails, i)
    decreases i
  {
    if i > 0 {
      RunSkips(p, fails, i - 1);
      assert !Fatal(p.effects, fails, i - 1);
    }
  }

  /** A run in which nothing fatal happens is its plan. */
  lemma RunCompletes(p: Plan, fails: set<nat>)
    requires Completes(p, fails)
    ensures Run(p, fails) == Outcome(p.effects, p.end)
  {
    RunSkips(p, fails, |p.effects|);
  }

  /** A run ends at its first fatal call, with that call as its last effect. */
  lemma RunStopsAt(p: Plan, fails: set<nat>, k: nat)
    requires k < |p.effects| && NoFatalBefore(p.effects, fails, k) && Fatal(p.effects, fails, k)
    ensures Run(p, fails) == Outcome(p.effects[..k + 1], Failed(Threw(p.effects[k])))
  {
    RunSkips(p, fails, k);
  }

  lemma {:induction false} FirstFatal(effects: seq<Effect>, fails: set<nat>, n: nat)
    requires !NoFatalBefore(effects, fails, n)
    ensures exists k: nat :: k < n && k < |effects| && NoFatalBefore(effects, fails, k) && Fatal(effects, fails, k)
  {
    if NoFatalBefore(effects, fails, n - 1) {
      assert n - 1 < |effects| && Fatal(effects, fails, n - 1);
    } else {
      FirstFatal(effects, fails, n - 1);
    }
  }

  /** Every run is a prefix of its plan: either all of it, ending as planned,
      or the part up to and including the first fatal call. */
  lemma RunShape(p: Plan, fails: set<nat>)
    ensures Run(p, fails).trace <= p.effects
    ensures Completes(p, fails) ==> Run(p, fails) == Outcome(p.effects, p.end)
    ensures !Completes(p, fails) ==>
      exists k: nat :: k < |p.effects| && NoFatalBefore(p.effects, fails, k) && Fatal(p.effects, fails, k) &&
        Run(p, fails) == Outcome(p.effects[..k + 1], Failed(Threw(p.effects[k])))
  {
    if Completes(p, fails) {
      RunCompletes(p, fails);
    } else {
      FirstFatal(p.effects, fails, |p.effects|);
      var k: nat :| k < |p.effects| && NoFatalBefore(p.effects, fails, k) && Fatal(p.effects, fails, k);
      RunStopsAt(p, fails, k);
    }
  }

  /** Only planned calls are made, and a run ends either as planned (with
      every call made) or on a call that threw. */
  lemma RunEmitsPlanned(p: Plan, fails: set<nat>)
    ensures var o := Run(p, fails);
      o.trace <= p.effects && (forall e :: e in o.trace ==> e in p.effects) &&
      ((o.status == p.end && o.trace == p.effects && Completes(p, fails)) ||
       (0 < |o.trace| <= |p.effects| && o.status == Failed(Threw(o.trace[|o.trace| - 1])) &&
        Fatal(p.effects, fails, |o.trace| - 1)))
  {
    RunShape(p, fails);
    var o := Run(p, fails);
    assert o.trace == p.effects[..|o.trace|];
  }

  lemma {:induction false} RunFromIgnoresPullFailures(p: Plan, f1: set<nat>, f2: set<nat>, i: nat)
    requires i <= |p.effects|
    requires forall k :: 0 <= k < |p.effects| && !p.effects[k].Pull? ==> (k in f1 <==> k in f2)
    ensures RunFrom(p, f1, i) == RunFrom(p, f2, i)
    decreases |p.effects| - i
  {
    if i < |p.effects| {
      assert Fatal(p.effects, f1, i) == Fatal(p.effects, f2, i);
      RunFromIgnoresPullFailures(p, f1, f2, i + 1);
    }
  }

  /** Whether a pull throws makes no difference to a run. */
  lemma RunIgnoresPullFailures(p: Plan, f1: set<nat>, f2: set<nat>)
    requires forall k :: 0 <= k < |p.effects| && !p.effects[k].Pull? ==> (k in f1 <==> k in f2)
    ensures Run(p, f1) == Run(p, f2)
  {
    RunFromIgnoresPullFailures(p, f1, f2, 0);
  }

  /** A hook call, made only when the hook is configured. */
  function HookStep(configured: bool, hook: HookName): seq<Effect>
  {
    if configured then [Hook(hook)] else []
  }

  // ----- One external call, as the imperative methods make it -----

  /** The external call `e`, made as call number `|trace|` of a run whose
      plan is `p`, with `todo` the calls the plan still holds: it is recorded,
      and `threw` says whether it throws. The ghost facts say where the run
      stands afterwards: on a thrown error that nothing catches the run ends
      here; otherwise it goes on with `rest`. */
  method Call(ghost p: Plan, trace: seq<Effect>, e: Effect, fails: set<nat>, ghost todo: seq<Effect>)
    returns (after: seq<Effect>, threw: bool, ghost rest: seq<Effect>)
    requires p.effects == trace + todo && |todo| > 0 && todo[0] == e
    requires NoFatalBefore(p.effects, fails, |trace|)
    ensures after == trace + [e] && rest == todo[1..] && p.effects == after + rest
    ensures threw <==> |trace| in fails
    ensures threw && !e.Pull? ==> Run(p, fails) == Outcome(after, Failed(Threw(e)))
    ensures !threw || e.Pull? ==> NoFatalBefore(p.effects, fails, |after|)
  {
    after := trace + [e];
    threw := |trace| in fails;
    rest := todo[1..];
    assert p.effects[|trace|] == e;
    assert p.effects == after + rest;
    if threw && !e.Pull? {
      RunStopsAt(p, fails, |trace|);
      assert p.effects[..|trace| + 1] == after;
    }
  }

  /** The run so far is the start of plan `p`, followed in it by `rest`, and
      nothing in it was fatal. */
  ghost predicate OnPlan(fails: set<nat>, p: Plan, trace: seq<Effect>, rest: seq<Effect>)
  {
    p.effects == trace + rest && NoFatalBefore(p.effects, fails, |trace|)
  }

  /** A segment still to come may be split into its first part and the rest. */
  lemma OnPlanSplit(fails: set<nat>, p: Plan, trace: seq<Effect>, x: seq<Effect>, y: seq<Effect>,
                    z: seq<Effect>, rest: seq<Effect>)
    requires x == y + z && OnPlan(fails, p, trace, x + rest)
    ensures OnPlan(fails, p, trace, y + (z + rest))
  {
    assert x + rest == y + (z + rest);
  }

  /** A phase either stops the run, with the run's final outcome, or carries
      out its segment of the plan. */
  ghost predicate PhaseDone(fails: set<nat>, p: Plan, trace: seq<Effect>, segment: seq<Effect>,
                            rest: seq<Effect>, stopped: Option<Outcome>, after: seq<Effect>)
  {
    match stopped
    case Some(o) => o == Run(p, fails)
    case None => after == trace + segment && OnPlan(fails, p, after, rest)
  }

  /** A run in which nothing before position k is fatal reaches position k. */
  lemma RunReaches(p: Plan, fails: set<nat>, k: nat)
    requires k < |p.effects| && NoFatalBefore(p.effects, fails, k)
    ensures k < |Run(p, fails).trace| && Run(p, fails).trace[k] == p.effects[k]
  {
    RunEmitsPlanned(p, fails);
  }

  /** The whole plan was carried out: the run ends as planned. */
  lemma Finished(p: Plan, fails: set<nat>, trace: seq<Effect>)
    requires trace == p.effects && NoFatalBefore(p.effects, fails, |trace|)
    ensures Run(p, fails) == Outcome(trace, p.end)
  {
    RunCompletes(p, fails);
  }

  // ----- Order of effects -----

  lemma BeforeAcross(x: seq<Effect>, y: seq<Effect>, a: Effect, b: Effect)
    requires a in x && b in y
    ensures Before(x + y, a, b)
  {
    var i :| 0 <= i < |x| && x[i] == a;
    var j :| 0 <= j < |y| && y[j] == b;
    assert (x + y)[i] == a && (x + y)[|x| + j] == b;
  }

  lemma BeforeLeft(x: seq<Effect>, y: seq<Effect>, a: Effect, b: Effect)
    requires Before(x, a, b)
    ensures Before(x + y, a, b)
  {
    var i, j :| 0 <= i < j < |x| && x[i] == a && x[j] == b;
    assert (x + y)[i] == a && (x + y)[j] == b;
  }

  lemma BeforeRight(x: seq<Effect>, y: seq<Effect>, a: Effect, b: Effect)
    requires Before(y, a, b)
    ensures Before(x + y, a, b)
  {
    var i, j :| 0 <= i < j < |y| && y[i] == a && y[j] == b;
    assert (x + y)[|x| + i] == a && (x + y)[|x| + j] == b;
  }

  /** If `b` occurs once in `t`, after `a`, then every prefix of `t` that
      contains `b` contains `a` before it. */
  lemma BeforeInPrefix(s: seq<Effect>, t: seq<Effect>, a: Effect, b: Effect)
    requires s <= t && b in s && Before(t, a, b) && multiset(t)[b] == 1
    ensures Before(s, a, b)
  {
    var i, j :| 0 <= i < j < |t| && t[i] == a && t[j] == b;
    var k :| 0 <= k < |s| && s[k] == b;
    OccursOnce(t, b, j, k);
    assert s[i] == a;
  }

  lemma OccursOnce(t: seq<Effect>, b: Effect, j: nat, k: nat)
    requires j < |t| && k < |t| && t[j] == b && t[k] == b && multiset(t)[b] == 1
    ensures j == k
  {
    var left, right := t[..j], t[j + 1..];
    assert t == left + [b] + right;
    assert multiset(left)[b] == 0 && multiset(right)[b] == 0;
  }

  lemma PrefixMultiset(s: seq<Effect>, t: seq<Effect>)
    requires s <= t
    ensures multiset(s) <= multiset(t)
  {
    assert t == s + t[|s|..];
  }

  /** What occurs once in a sequence occurs once in each prefix holding it. */
  lemma OnceInPrefix(s: seq<Effect>, t: seq<Effect>, e: Effect)
    requires s <= t && e in s && multiset(t)[e] == 1
    ensures multiset(s)[e] == 1
  {
    PrefixMultiset(s, t);
  }

  /** A prefix holding the last element of a sequence, where that element
      occurs nowhere else, is the whole sequence. */
  lemma OnlyAtEnd(s: seq<Effect>, t: seq<Effect>, e: Effect)
    requires s <= t && e in s && |t| > 0 && t[|t| - 1] == e && e !in t[..|t| - 1]
    ensures s == t
  {
    var k :| 0 <= k < |s| && s[k] == e;
    assert t[k] == e;
  }
}
