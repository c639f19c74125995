/** What a `release` run does, stated about `ReleaseOutcome` for every
    environment: where it can be cancelled or fail before the forge, what
    the release and its description say, and which pull requests are
    commented on, in which order. "Completes" below means that no call of
    the run throws. */
module ReleaseProperties {
  import opened Context
  import opened Effects
  import opened ReleaseCommand

  // ----- Contributors (lines 35-37) -----

  lemma ContainsWithin(t: string, s: string, before: string, after: string)
    requires Contains(t, s)
    ensures Contains(before + t + after, s)
  {
    var i: nat :| i <= |t| && Occurs(t, s, i);
    var u := before + t + after;
    assert u[|before| + i..|before| + i + |s|] == t[i..i + |s|];
    assert Occurs(u, s, |before| + i);
  }

  lemma ContainsItself(s: string)
    ensures Contains(s, s)
  {
    assert s[0..|s|] == s;
    assert Occurs(s, s, 0);
  }

  /** Every part of a join occurs in it. */
  lemma {:induction false} JoinContainsParts(parts: seq<string>, separator: string)
    ensures forall i :: 0 <= i < |parts| ==> Contains(Join(parts, separator), parts[i])
    decreases |parts|
  {
    if |parts| == 1 {
      ContainsItself(parts[0]);
    } else if |parts| > 1 {
      var rest := Join(parts[1..], separator);
      JoinContainsParts(parts[1..], separator);
      forall i | 0 <= i < |parts| ensures Contains(Join(parts, separator), parts[i]) {
        if i == 0 {
          ContainsItself(parts[0]);
          ContainsWithin(parts[0], parts[0], "", separator + rest);
          assert "" + parts[0] + (separator + rest) == Join(parts, separator);
        } else {
          assert parts[i] == parts[1..][i - 1];
          ContainsWithin(rest, parts[i], parts[0] + separator, "");
          assert parts[0] + separator + rest + "" == Join(parts, separator);
        }
      }
    }
  }

  /** Joining one more part appends the separator and the part. */
  lemma {:induction false} JoinAppend(parts: seq<string>, part: string, separator: string)
    requires parts != []
    ensures Join(parts + [part], separator) == Join(parts, separator) + separator + part
    decreases |parts|
  {
    if |parts| > 1 {
      assert (parts + [part])[1..] == parts[1..] + [part];
      JoinAppend(parts[1..], part, separator);
    } else {
      assert parts + [part] == [parts[0], part];
    }
  }

  lemma {:induction false} MentionsAppend(changes: seq<Change>, change: Change)
    ensures Mentions(changes + [change]) == Mentions(changes) + ["@" + change.author]
  {
    var l, r := Mentions(changes + [change]), Mentions(changes) + ["@" + change.author];
    assert |l| == |r|;
    forall i | 0 <= i < |l| ensures l[i] == r[i] {
      if i < |changes| { assert (changes + [change])[i] == changes[i]; }
    }
  }

  /** The thanks section is its heading followed by "@author" for every
      change, in order, separated by ", ", without removing duplicates: each
      further change adds exactly one more mention. */
  lemma ContributorsMentionEveryAuthor(changes: seq<Change>)
    ensures Contributors(changes)[..|ContributorsHeading|] == ContributorsHeading
    ensures forall i :: 0 <= i < |changes| ==> Contains(Contributors(changes), "@" + changes[i].author)
    ensures |Mentions(changes)| == |changes|
    ensures changes == [] ==> Contributors(changes) == ContributorsHeading
  {
    var joined := Join(Mentions(changes), ", ");
    JoinContainsParts(Mentions(changes), ", ");
    forall i | 0 <= i < |changes| ensures Contains(Contributors(changes), "@" + changes[i].author) {
      ContainsWithin(joined, "@" + changes[i].author, ContributorsHeading, "");
      assert ContributorsHeading + joined + "" == Contributors(changes);
    }
  }

  lemma ContributorsAppend(changes: seq<Change>, change: Change)
    requires changes != []
    ensures Contributors(changes + [change]) == Contributors(changes) + ", @" + change.author
  {
    MentionsAppend(changes, change);
    JoinAppend(Mentions(changes), "@" + change.author, ", ");
  }

  // ----- The plan, segment by segment -----

  /** The pull-request numbers commented on in a trace, in order. */
  function CommentedNumbers(trace: seq<Effect>): seq<int>
  {
    if trace == [] then []
    else (if trace[0].AddComment? then [trace[0].pullRequestNumber] else []) + CommentedNumbers(trace[1..])
  }

  lemma {:induction false} CommentedNumbersAppend(a: seq<Effect>, b: seq<Effect>)
    ensures CommentedNumbers(a + b) == CommentedNumbers(a) + CommentedNumbers(b)
    decreases |a|
  {
    if a == [] {
      assert a + b == b;
    } else {
      assert (a + b)[0] == a[0] && (a + b)[1..] == a[1..] + b;
      CommentedNumbersAppend(a[1..], b);
    }
  }

  /** The numbers commented on so far are a prefix of those of the whole run. */
  lemma CommentedNumbersPrefix(s: seq<Effect>, t: seq<Effect>)
    requires s <= t
    ensures CommentedNumbers(s) <= CommentedNumbers(t)
  {
    assert t == s + t[|s|..];
    CommentedNumbersAppend(s, t[|s|..]);
  }

  lemma {:induction false} CommentedNumbersOfNotifications(owner: string, repo: string, numbers: seq<int>, comment: string)
    ensures CommentedNumbers(Notifications(owner, repo, numbers, comment)) == numbers
    decreases |numbers|
  {
    if numbers != [] {
      CommentedNumbersOfNotifications(owner, repo, numbers[1..], comment);
    }
  }

  lemma HookStepComments(configured: bool, hook: HookName)
    ensures CommentedNumbers(HookStep(configured, hook)) == []
  {
  }

  /** A call made only past the gate. */
  predicate Publishing(e: Effect)
  {
    e != Hook(BeforeRelease)
  }

  lemma PublishedPlan(env: ReleaseEnv)
    requires HasRepository(env.ci) && !ReleaseVetoed(env)
    ensures ReleasePlan(env) == Plan(ReleaseGate(env) + Publication(env), Done)
  {
  }

  lemma GateOnly(env: ReleaseEnv)
    ensures forall e :: e in ReleaseGate(env) ==> !Publishing(e)
    ensures CommentedNumbers(ReleaseGate(env)) == []
  {
  }

  /** Lifts facts about the calls past the gate to the whole plan. */
  lemma LiftPastGate(x: seq<Effect>, f: seq<Effect>)
    requires forall e :: e in x ==> !Publishing(e)
    ensures forall e :: Publishing(e) ==> multiset(x + f)[e] == multiset(f)[e]
    ensures forall e :: e in x + f && Publishing(e) ==> e in f
    ensures forall a, b :: Before(f, a, b) ==> Before(x + f, a, b)
    ensures |f| > 0 ==> (x + f)[|x + f| - 1] == f[|f| - 1] && (x + f)[..|x + f| - 1] == x + f[..|f| - 1]
  {
    forall e | Publishing(e) ensures multiset(x + f)[e] == multiset(f)[e] {
      assert multiset(x)[e] == 0;
    }
    forall a, b | Before(f, a, b) ensures Before(x + f, a, b) {
      BeforeRight(x, f, a, b);
    }
  }

  lemma CommentsShape(env: ReleaseEnv)
    requires HasRepository(env.ci)
    ensures forall e :: e in Comments(env) ==>
      e.AddComment? && e == AddComment(env.ci.repoOwner.value, env.ci.repoName.value, e.pullRequestNumber,
                      CommentText(env.nextVersion, env.releaseLink)) &&
      e.pullRequestNumber in PullRequestNumbers(env.changes)
    ensures CommentedNumbers(Comments(env)) == PullRequestNumbers(env.changes)
  {
    var owner, repo, comment := env.ci.repoOwner.value, env.ci.repoName.value, CommentText(env.nextVersion, env.releaseLink);
    NotificationsShape(owner, repo, PullRequestNumbers(env.changes), comment);
    CommentedNumbersOfNotifications(owner, repo, PullRequestNumbers(env.changes), comment);
  }

  lemma PublicationLayout(env: ReleaseEnv)
    requires HasRepository(env.ci)
    ensures var d, r, c, a := HookStep(env.user.getReleaseDescription.Some?, GetReleaseDescription), ExpectedRelease(env),
                              Comments(env), HookStep(env.user.afterRelease, AfterRelease);
      Publication(env) == d + ([r] + (c + a)) &&
      (forall e :: e in d ==> e == Hook(GetReleaseDescription)) &&
      (forall e :: e in a ==> e == Hook(AfterRelease)) &&
      (forall e :: e in c ==> e.AddComment?)
  {
    CommentsShape(env);
  }

  /** In a layout hooks + release + comments + hooks, the release occurs
      once, is the only release, and follows the leading hooks. */
  lemma ReleaseInLayout(d: seq<Effect>, r: Effect, c: seq<Effect>, a: seq<Effect>)
    requires r.CreateRelease?
    requires forall e :: e in d ==> e.Hook?
    requires forall e :: e in c ==> e.AddComment?
    requires forall e :: e in a ==> e.Hook?
    ensures var s := d + ([r] + (c + a));
      multiset(s)[r] == 1 && (forall e :: e in s && e.CreateRelease? ==> e == r) &&
      forall h :: h in d ==> Before(s, h, r)
  {
    var s := d + ([r] + (c + a));
    assert r !in d && r !in c + a;
    assert multiset(d)[r] == 0 && multiset(c + a)[r] == 0;
    forall h | h in d ensures Before(s, h, r) {
      BeforeAcross(d, [r] + (c + a), h, r);
    }
  }

  /** The release is created once, after the description hook. */
  lemma PublicationRelease(env: ReleaseEnv)
    requires HasRepository(env.ci)
    ensures var f, r := Publication(env), ExpectedRelease(env);
      multiset(f)[r] == 1 &&
      (forall e :: e in f && e.CreateRelease? ==> e == r) &&
      (env.user.getReleaseDescription.Some? ==> Before(f, Hook(GetReleaseDescription), r))
  {
    var d, r, c, a := HookStep(env.user.getReleaseDescription.Some?, GetReleaseDescription), ExpectedRelease(env),
                      Comments(env), HookStep(env.user.afterRelease, AfterRelease);
    PublicationLayout(env);
    ReleaseInLayout(d, r, c, a);
  }

  /** In a layout hooks + release + comments + hooks, every comment is one
      of the comments and comes after the release, which stands right after
      the leading hooks. */
  lemma CommentsInLayout(d: seq<Effect>, r: Effect, c: seq<Effect>, a: seq<Effect>)
    requires r.CreateRelease?
    requires (forall e :: e in d ==> e.Hook?) && CommentedNumbers(d) == []
    requires (forall e :: e in a ==> e.Hook?) && CommentedNumbers(a) == []
    ensures var s := d + ([r] + (c + a));
      (forall e :: e in s && e.AddComment? ==> e in c) &&
      |d| < |s| && s[|d|] == r && (forall k :: 0 <= k < |s| && s[k].AddComment? ==> |d| < k) &&
      CommentedNumbers(s) == CommentedNumbers(c)
  {
    var s := d + ([r] + (c + a));
    assert forall k :: 0 <= k < |d| ==> s[k] in d;
    CommentedNumbersAppend(d, [r] + (c + a));
    CommentedNumbersAppend([r], c + a);
    CommentedNumbersAppend(c, a);
  }

  /** The comments are those of `Comments`, all after the release. */
  lemma PublicationComments(env: ReleaseEnv)
    requires HasRepository(env.ci)
    ensures var f, r := Publication(env), ExpectedRelease(env);
      (forall e :: e in f && e.AddComment? ==> e in Comments(env)) &&
      (var i := |HookStep(env.user.getReleaseDescription.Some?, GetReleaseDescription)|;
       i < |f| && f[i] == r && forall k :: 0 <= k < |f| && f[k].AddComment? ==> i < k) &&
      CommentedNumbers(f) == PullRequestNumbers(env.changes)
  {
    var d, r, c, a := HookStep(env.user.getReleaseDescription.Some?, GetReleaseDescription), ExpectedRelease(env),
                      Comments(env), HookStep(env.user.afterRelease, AfterRelease);
    PublicationLayout(env);
    CommentsShape(env);
    HookStepComments(env.user.getReleaseDescription.Some?, GetReleaseDescription);
    HookStepComments(env.user.afterRelease, AfterRelease);
    CommentsInLayout(d, r, c, a);
  }

  /** In a layout hooks + release + comments + a trailing hook step, a hook
      `h` that the leading hooks do not hold can only be the trailing one:
      it is then the last element and occurs nowhere else. */
  lemma TrailingHook(d: seq<Effect>, r: Effect, c: seq<Effect>, a: seq<Effect>, h: Effect)
    requires h.Hook? && !r.Hook? && h !in d
    requires forall e :: e in c ==> e.AddComment?
    requires a == [] || a == [h]
    ensures var s := d + ([r] + (c + a));
      h in s ==> a == [h] && s[|s| - 1] == h && h !in s[..|s| - 1]
  {
    var x := d + ([r] + c);
    assert d + ([r] + (c + a)) == x + a;
    assert h !in x;
    if a == [h] {
      assert (x + a)[..|x + a| - 1] == x;
    }
  }

  /** `afterRelease`, when configured, is the last call, and only there. */
  lemma PublicationAfterRelease(env: ReleaseEnv)
    requires HasRepository(env.ci)
    ensures var f := Publication(env);
      Hook(AfterRelease) in f ==> env.user.afterRelease && f[|f| - 1] == Hook(AfterRelease) &&
                                  Hook(AfterRelease) !in f[..|f| - 1]
  {
    var d, r, c, a := HookStep(env.user.getReleaseDescription.Some?, GetReleaseDescription), ExpectedRelease(env),
                      Comments(env), HookStep(env.user.afterRelease, AfterRelease);
    PublicationLayout(env);
    TrailingHook(d, r, c, a, Hook(AfterRelease));
  }

  lemma PlanRelease(env: ReleaseEnv)
    requires HasRepository(env.ci) && !ReleaseVetoed(env)
    ensures var p, r := ReleasePlan(env).effects, ExpectedRelease(env);
      multiset(p)[r] == 1 &&
      (forall e :: e in p && e.CreateRelease? ==> e == r) &&
      (env.user.getReleaseDescription.Some? ==> Before(p, Hook(GetReleaseDescription), r))
  {
    PublishedPlan(env);
    PublicationRelease(env);
    GateOnly(env);
    LiftPastGate(ReleaseGate(env), Publication(env));
  }

  lemma PlanComments(env: ReleaseEnv)
    requires HasRepository(env.ci) && !ReleaseVetoed(env)
    ensures var p := ReleasePlan(env).effects;
      (forall e :: e in p && e.AddComment? ==> e in Comments(env)) &&
      CommentedNumbers(p) == PullRequestNumbers(env.changes)
  {
    PublishedPlan(env);
    PublicationComments(env);
    GateOnly(env);
    LiftPastGate(ReleaseGate(env), Publication(env));
    CommentedNumbersAppend(ReleaseGate(env), Publication(env));
  }

  lemma PlanAfterRelease(env: ReleaseEnv)
    requires HasRepository(env.ci) && !ReleaseVetoed(env)
    ensures var p := ReleasePlan(env).effects;
      Hook(AfterRelease) in p ==>
        env.user.afterRelease && p[|p| - 1] == Hook(AfterRelease) && Hook(AfterRelease) !in p[..|p| - 1]
  {
    PublishedPlan(env);
    PublicationAfterRelease(env);
    GateOnly(env);
    LiftPastGate(ReleaseGate(env), Publication(env));
  }

  /** The position of the release call in the plan. */
  function ReleaseIndex(env: ReleaseEnv): nat
  {
    |ReleaseGate(env)| + |HookStep(env.user.getReleaseDescription.Some?, GetReleaseDescription)|
  }

  lemma PlanReleaseIndex(env: ReleaseEnv)
    requires HasRepository(env.ci) && !ReleaseVetoed(env)
    ensures var p, i := ReleasePlan(env).effects, ReleaseIndex(env);
      i < |p| && p[i] == ExpectedRelease(env) && forall k :: 0 <= k < |p| && p[k].AddComment? ==> i < k
  {
    PublishedPlan(env);
    PublicationComments(env);
    GateOnly(env);
    var g: seq<Effect>, f: seq<Effect> := ReleaseGate(env), Publication(env);
    assert (g + f)[ReleaseIndex(env)] == f[ReleaseIndex(env) - |g|];
    forall k | 0 <= k < |g + f| && (g + f)[k].AddComment? ensures ReleaseIndex(env) < k {
      if k >= |g| { assert (g + f)[k] == f[k - |g|]; }
    }
  }

  /** Which calls can be made at all: none past the gate when it cancels or
      when the repository is not configured. */
  lemma PlanCalls(env: ReleaseEnv)
    ensures forall e :: e in ReleasePlan(env).effects && Publishing(e) ==> HasRepository(env.ci) && !ReleaseVetoed(env)
    ensures forall e :: e in ReleasePlan(env).effects && e.AddComment? ==> HasRepository(env.ci) && e in Comments(env)
  {
    GateOnly(env);
    if HasRepository(env.ci) && !ReleaseVetoed(env) {
      PlanComments(env);
      PlanRelease(env);
    }
  }

  // ----- The gate and the repository check (lines 17-26) -----

  /** `beforeRelease` returning `false` ends the run right after the hook,
      before any call to the forge; a run ends cancelled in no other way. */
  lemma BeforeReleaseGate(env: ReleaseEnv, fails: set<nat>)
    ensures ReleaseOutcome(env, fails).status == Cancelled <==> ReleaseVetoed(env) && Completes(ReleasePlan(env), fails)
    ensures ReleaseVetoed(env) ==> ReleaseOutcome(env, fails).trace == [Hook(BeforeRelease)]
  {
    RunEmitsPlanned(ReleasePlan(env), fails);
    if !ReleaseVetoed(env) && HasRepository(env.ci) {
      PublishedPlan(env);
    }
  }

  /** Without a repository owner and name the run fails before the
      description, the release and every comment; only the gate has run. */
  lemma MissingRepoConfigRelease(env: ReleaseEnv, fails: set<nat>)
    requires !HasRepository(env.ci)
    ensures ReleaseOutcome(env, fails).trace == ReleaseGate(env)
    ensures ReleaseOutcome(env, fails).status != Done
    ensures !ReleaseVetoed(env) && Completes(ReleasePlan(env), fails) ==>
      ReleaseOutcome(env, fails).status == Failed(MissingRepoConfig)
  {
    RunEmitsPlanned(ReleasePlan(env), fails);
    assert |ReleaseGate(env)| <= 1;
  }

  // ----- The release (lines 39-50) -----

  /** The release is created once, with the version as both tag and name and
      the hook's description or else the thanks section above the changelog
      section, after the description hook and before every comment. */
  lemma ReleaseCall(env: ReleaseEnv, fails: set<nat>)
    ensures ReleaseDescription(env) ==
      if env.user.getReleaseDescription.Some? then env.user.getReleaseDescription.value
      else Contributors(env.changes) + "\n\n" + env.changelogSection
    ensures var o := ReleaseOutcome(env, fails);
      forall e :: e in o.trace && e.CreateRelease? ==>
        HasRepository(env.ci) && !ReleaseVetoed(env) && e == ExpectedRelease(env) &&
        e.tag == env.nextVersion && e.name == env.nextVersion && multiset(o.trace)[e] == 1 &&
        (env.user.getReleaseDescription.Some? ==> Before(o.trace, Hook(GetReleaseDescription), e))
  {
    var p := ReleasePlan(env);
    var o := ReleaseOutcome(env, fails);
    RunEmitsPlanned(p, fails);
    PlanCalls(env);
    if HasRepository(env.ci) && !ReleaseVetoed(env) {
      var r := ExpectedRelease(env);
      PlanRelease(env);
      if r in o.trace {
        OnceInPrefix(o.trace, p.effects, r);
        if env.user.getReleaseDescription.Some? {
          BeforeInPrefix(o.trace, p.effects, Hook(GetReleaseDescription), r);
        }
      }
    }
  }

  /** Every comment comes after the release was created. */
  lemma ReleaseBeforeComments(env: ReleaseEnv, fails: set<nat>)
    ensures var o := ReleaseOutcome(env, fails);
      forall e :: e in o.trace && e.AddComment? ==> HasRepository(env.ci) && Before(o.trace, ExpectedRelease(env), e)
  {
    var p := ReleasePlan(env);
    var o := ReleaseOutcome(env, fails);
    RunEmitsPlanned(p, fails);
    PlanCalls(env);
    if HasRepository(env.ci) && !ReleaseVetoed(env) {
      PlanReleaseIndex(env);
      forall e | e in o.trace && e.AddComment? ensures Before(o.trace, ExpectedRelease(env), e) {
        var j :| 0 <= j < |o.trace| && o.trace[j] == e;
        ReleaseBeforeComment(p.effects, o.trace, ExpectedRelease(env), ReleaseIndex(env), j);
      }
    }
  }

  /** In a prefix of `p`, a call at position `i` of `p` precedes every
      comment that `p` makes only after position `i`. */
  lemma ReleaseBeforeComment(p: seq<Effect>, s: seq<Effect>, r: Effect, i: nat, j: nat)
    requires s <= p && i < |p| && j < |s| && p[i] == r && s[j].AddComment?
    requires forall k :: 0 <= k < |p| && p[k].AddComment? ==> i < k
    ensures Before(s, r, s[j])
  {
    assert p[j] == s[j];
    assert s[i] == r;
  }

  // ----- The comments (lines 55-72) -----

  /** The comments go, in input order, to exactly the changes whose number
      is truthy, each saying the version and linking the release; a run
      that stops early has commented on a prefix of them. */
  lemma CommentsFollowChanges(env: ReleaseEnv, fails: set<nat>)
    ensures CommentedNumbers(ReleaseOutcome(env, fails).trace) <= PullRequestNumbers(env.changes)
    ensures HasRepository(env.ci) && !ReleaseVetoed(env) && Completes(ReleasePlan(env), fails) ==>
      CommentedNumbers(ReleaseOutcome(env, fails).trace) == PullRequestNumbers(env.changes)
    ensures forall n :: n in PullRequestNumbers(env.changes) ==>
      n != 0 && exists c :: c in env.changes && c.pullRequestNumber == Some(n)
    ensures forall c :: c in env.changes && HasNumber(c.pullRequestNumber) ==> c.pullRequestNumber.value in PullRequestNumbers(env.changes)
  {
    var p := ReleasePlan(env);
    var o := ReleaseOutcome(env, fails);
    RunShape(p, fails);
    PullRequestNumbersSelect(env.changes);
    CommentedNumbersPrefix(o.trace, p.effects);
    if HasRepository(env.ci) && !ReleaseVetoed(env) {
      PlanComments(env);
    } else {
      GateOnly(env);
    }
  }

  /** Every comment goes to the configured repository, on a selected pull
      request, and says the version and links the release. */
  lemma CommentContents(env: ReleaseEnv, fails: set<nat>)
    ensures var o := ReleaseOutcome(env, fails);
      forall e :: e in o.trace && e.AddComment? ==>
        HasRepository(env.ci) &&
        e == AddComment(env.ci.repoOwner.value, env.ci.repoName.value, e.pullRequestNumber,
                        CommentText(env.nextVersion, env.releaseLink)) &&
        e.pullRequestNumber in PullRequestNumbers(env.changes) &&
        Contains(e.comment, env.nextVersion) && Contains(e.comment, env.releaseLink)
  {
    var p := ReleasePlan(env);
    var o := ReleaseOutcome(env, fails);
    RunEmitsPlanned(p, fails);
    PlanCalls(env);
    if HasRepository(env.ci) {
      CommentsShape(env);
    }
  }

  /** A run that calls `afterRelease` has carried out the whole plan, and
      ends with that call. */
  lemma AfterReleaseEndsRun(env: ReleaseEnv, fails: set<nat>)
    requires Hook(AfterRelease) in ReleaseOutcome(env, fails).trace
    ensures var o := ReleaseOutcome(env, fails);
      HasRepository(env.ci) && !ReleaseVetoed(env) && env.user.afterRelease &&
      o.trace == ReleasePlan(env).effects && o.trace[|o.trace| - 1] == Hook(AfterRelease)
  {
    var p := ReleasePlan(env);
    var o := ReleaseOutcome(env, fails);
    RunEmitsPlanned(p, fails);
    PlanCalls(env);
    assert HasRepository(env.ci) && !ReleaseVetoed(env);
    PlanAfterRelease(env);
    OnlyAtEnd(o.trace, p.effects, Hook(AfterRelease));
  }

  /** `afterRelease` runs only once every comment has been made, as the last
      call; a comment that throws therefore ends the run without it. */
  lemma AfterReleaseLast(env: ReleaseEnv, fails: set<nat>)
    ensures var o := ReleaseOutcome(env, fails);
      Hook(AfterRelease) in o.trace ==>
        env.user.afterRelease && o.trace == ReleasePlan(env).effects &&
        CommentedNumbers(o.trace) == PullRequestNumbers(env.changes)
    ensures var o := ReleaseOutcome(env, fails);
      o.status.Failed? && o.status.cause.Threw? && o.status.cause.effect.AddComment? ==>
        Hook(AfterRelease) !in o.trace
  {
    var o := ReleaseOutcome(env, fails);
    if Hook(AfterRelease) in o.trace {
      AfterReleaseEndsRun(env, fails);
      PlanComments(env);
      RunEmitsPlanned(ReleasePlan(env), fails);
    }
  }

  // ----- A concrete run -----

  /** Releasing 2.0.0 with one change by alice through pull request 42, no
      hooks and a configured repository creates the release and then
      comments on pull request 42. */
  lemma AliceScenario(link: string)
    ensures var env := ReleaseEnv("2.0.0", UserHooks(None, None, None, false, None, false, None),
                                  CiConfig(Some("owner"), Some("repo")), [Change("alice", Some(42))], "section", link);
      ReleaseOutcome(env, {}) ==
        Outcome([CreateRelease("owner", "repo", "2.0.0", ContributorsHeading + "@alice" + "\n\n" + "section", "2.0.0"),
                 AddComment("owner", "repo", 42, CommentText("2.0.0", link))], Done)
  {
    var env := ReleaseEnv("2.0.0", UserHooks(None, None, None, false, None, false, None),
                          CiConfig(Some("owner"), Some("repo")), [Change("alice", Some(42))], "section", link);
    var p := ReleasePlan(env);
    var changes := [Change("alice", Some(42))];
    assert changes[1..] == [];
    assert Mentions(changes) == ["@" + "alice"];
    assert Contributors(changes) == ContributorsHeading + "@alice";
    assert ReleaseDescription(env) == ContributorsHeading + "@alice" + "\n\n" + "section";
    assert PullRequestNumbers(env.changes) == [42];
    assert [42][1..] == [];
    assert Comments(env) == Notifications("owner", "repo", [42], CommentText("2.0.0", link));
    assert Comments(env) == [AddComment("owner", "repo", 42, CommentText("2.0.0", link))];
    assert p.effects == [ExpectedRelease(env), AddComment("owner", "repo", 42, CommentText("2.0.0", link))];
    RunCompletes(p, {});
  }
}
