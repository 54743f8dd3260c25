/** The release and deployment status machines: their transition tables, the runs that follow
    them, what every run must have passed before a late status, and how long a run can be. */
module StatusMachines {

  // ----- Deployments

  datatype Deployment =
    | Planned
    | PreflightRunning | PreflightFailed | PreflightPassed
    | MigrationGateRunning | MigrationGateFailed | MigrationGatePassed
    | RlsGateRunning | RlsGateFailed | RlsGatePassed
    | SecurityGateRunning | SecurityGateFailed | SecurityGatePassed
    | AwaitingApproval | DeploymentApproved
    | Executing | Executed | DeploymentVerifying | DeploymentVerified
    | DeploymentFailed | DeploymentRolledBack

  function DeploymentTransitions(from: Deployment): set<Deployment> {
    match from
    case Planned => {PreflightRunning}
    case PreflightRunning => {PreflightPassed, PreflightFailed}
    case PreflightFailed => {DeploymentFailed}
    case PreflightPassed => {MigrationGateRunning}
    case MigrationGateRunning => {MigrationGatePassed, MigrationGateFailed}
    case MigrationGateFailed => {DeploymentFailed}
    case MigrationGatePassed => {RlsGateRunning}
    case RlsGateRunning => {RlsGatePassed, RlsGateFailed}
    case RlsGateFailed => {DeploymentFailed}
    case RlsGatePassed => {SecurityGateRunning}
    case SecurityGateRunning => {SecurityGatePassed, SecurityGateFailed}
    case SecurityGateFailed => {DeploymentFailed}
    case SecurityGatePassed => {AwaitingApproval}
    case AwaitingApproval => {DeploymentApproved, DeploymentFailed}
    case DeploymentApproved => {Executing}
    case Executing => {Executed, DeploymentFailed}
    case Executed => {DeploymentVerifying}
    case DeploymentVerifying => {DeploymentVerified, DeploymentFailed}
    case DeploymentVerified => {DeploymentVerified}
    case DeploymentFailed => {Planned}
    case DeploymentRolledBack => {Planned}
  }

  // ----- Releases

  datatype Release =
    | Created | Building | Built
    | SecurityGatesRunning | SecurityGatesFailed | SecurityGatesPassed
    | ManifestCreated | ArtifactSigned | PendingApproval | ReleaseApproved | Rejected
    | Deploying | Deployed | ReleaseVerifying | ReleaseVerified
    | ReleaseFailed | ReleaseRolledBack

  function ReleaseTransitions(from: Release): set<Release> {
    match from
    case Created => {Building}
    case Building => {Built, ReleaseFailed}
    case Built => {SecurityGatesRunning}
    case SecurityGatesRunning => {SecurityGatesPassed, SecurityGatesFailed}
    case SecurityGatesFailed => {ReleaseFailed}
    case SecurityGatesPassed => {ManifestCreated}
    case ManifestCreated => {ArtifactSigned}
    case ArtifactSigned => {PendingApproval}
    case PendingApproval => {ReleaseApproved, Rejected}
    case ReleaseApproved => {Deploying}
    case Rejected => {ReleaseFailed}
    case Deploying => {Deployed, ReleaseFailed}
    case Deployed => {ReleaseVerifying}
    case ReleaseVerifying => {ReleaseVerified, ReleaseFailed}
    case ReleaseVerified => {ReleaseVerified}
    case ReleaseFailed => {Created}
    case ReleaseRolledBack => {Created}
  }

  // ----- Runs of a machine

  /** A machine: its table, where it starts, where failures lead, its absorbing status, the path
      from the start to that status which meets no failed status, the statuses on that path, and
      how many steps after the start each status is met (`failed` counts as the step before). */
  datatype Machine<!S> = Machine(
    next: S -> set<S>, start: S, failed: S, verified: S,
    path: seq<S>, onPath: S -> bool, depth: S -> int)

  predicate OnDeploymentPath(s: Deployment) {
    match s
    case PreflightFailed | MigrationGateFailed | RlsGateFailed | SecurityGateFailed => false
    case DeploymentFailed | DeploymentRolledBack => false
    case _ => true
  }

  predicate OnReleasePath(s: Release) {
    match s
    case SecurityGatesFailed | Rejected | ReleaseFailed | ReleaseRolledBack => false
    case _ => true
  }

  function DeploymentDepth(s: Deployment): int {
    match s
    case DeploymentFailed => -1
    case Planned => 0
    case PreflightRunning => 1
    case PreflightPassed | PreflightFailed => 2
    case MigrationGateRunning => 3
    case MigrationGatePassed | MigrationGateFailed => 4
    case RlsGateRunning => 5
    case RlsGatePassed | RlsGateFailed => 6
    case SecurityGateRunning => 7
    case SecurityGatePassed | SecurityGateFailed => 8
    case AwaitingApproval => 9
    case DeploymentApproved => 10
    case Executing => 11
    case Executed => 12
    case DeploymentVerifying => 13
    case DeploymentVerified => 14
    case DeploymentRolledBack => -1
  }

  function ReleaseDepth(s: Release): int {
    match s
    case ReleaseFailed => -1
    case Created => 0
    case Building => 1
    case Built => 2
    case SecurityGatesRunning => 3
    case SecurityGatesPassed | SecurityGatesFailed => 4
    case ManifestCreated => 5
    case ArtifactSigned => 6
    case PendingApproval => 7
    case ReleaseApproved | Rejected => 8
    case Deploying => 9
    case Deployed => 10
    case ReleaseVerifying => 11
    case ReleaseVerified => 12
    case ReleaseRolledBack => -1
  }

  const DEPLOYMENT_PATH: seq<Deployment> :=
    [Planned, PreflightRunning, PreflightPassed, MigrationGateRunning, MigrationGatePassed,
     RlsGateRunning, RlsGatePassed, SecurityGateRunning, SecurityGatePassed, AwaitingApproval,
     DeploymentApproved, Executing, Executed, DeploymentVerifying, DeploymentVerified]

  const RELEASE_PATH: seq<Release> :=
    [Created, Building, Built, SecurityGatesRunning, SecurityGatesPassed, ManifestCreated,
     ArtifactSigned, PendingApproval, ReleaseApproved, Deploying, Deployed, ReleaseVerifying,
     ReleaseVerified]

  const DEPLOYMENT: Machine<Deployment> :=
    Machine(DeploymentTransitions, Planned, DeploymentFailed, DeploymentVerified,
            DEPLOYMENT_PATH, OnDeploymentPath, DeploymentDepth)

  const RELEASE: Machine<Release> :=
    Machine(ReleaseTransitions, Created, ReleaseFailed, ReleaseVerified,
            RELEASE_PATH, OnReleasePath, ReleaseDepth)

  /** A sequence of statuses, from the start, each a listed successor of the one before. */
  ghost predicate IsRun<S(!new)>(m: Machine<S>, run: seq<S>) {
    && run != [] && run[0] == m.start
    && forall i | 0 < i < |run| :: run[i] in m.next(run[i - 1])
  }

  function Last<S>(run: seq<S>): S
    requires run != []
  {
    run[|run| - 1]
  }

  function Init<S>(run: seq<S>): seq<S>
    requires run != []
  {
    run[..|run| - 1]
  }

  function Visits<S(==)>(run: seq<S>, status: S): nat {
    if run == [] then 0 else Visits(Init(run), status) + (if Last(run) == status then 1 else 0)
  }

  /** The part of a run from its last visit to the start. */
  function SinceStart<S(==)>(run: seq<S>, start: S): seq<S> {
    if run == [] then []
    else if Last(run) == start then [start]
    else SinceStart(Init(run), start) + [Last(run)]
  }

  // ----- Laws of a table

  /** The path visits each of its statuses once, at its depth. */
  ghost predicate PathDepths<S(!new)>(m: Machine<S>) {
    && (forall k | 0 <= k < |m.path| :: m.onPath(m.path[k]) && m.depth(m.path[k]) == k)
    && (forall s | m.onPath(s) :: 0 <= m.depth(s) < |m.path| && m.path[m.depth(s)] == s)
  }

  /** The table allows the path. */
  ghost predicate PathSteps<S(!new)>(m: Machine<S>) {
    forall k | 0 < k < |m.path| :: m.path[k] in m.next(m.path[k - 1])
  }

  /** The path leads from the start to `verified`, its last step can fail, and a failure leads
      back to the start. */
  ghost predicate PathEnds<S(!new)>(m: Machine<S>) {
    && |m.path| > 1 && m.path[0] == m.start && Last(m.path) == m.verified
    && m.failed in m.next(m.path[|m.path| - 2]) && m.start in m.next(m.failed)
    && m.depth(m.failed) == -1 && m.next(m.verified) == {m.verified}
  }

  /** A status of the path other than the start is entered only from the one before it. */
  ghost predicate EntryLaw<S(!new)>(m: Machine<S>, s: S, t: S) {
    t in m.next(s) && m.onPath(t) && t != m.start ==>
      (s == t == m.verified) || (m.onPath(s) && m.depth(s) + 1 == m.depth(t))
  }

  /** Every step that does not fail goes at least one deeper. */
  ghost predicate DepthLaw<S(!new)>(m: Machine<S>, s: S, t: S) {
    t in m.next(s) && s != m.verified ==>
      t == m.failed || m.depth(t) > m.depth(s)
  }

  /** Every status but the last lies before the end of the path. */
  ghost predicate ShallowLaw<S(!new)>(m: Machine<S>, s: S) {
    s != m.verified ==> m.depth(s) <= |m.path| - 2
  }

  ghost predicate Lawful<S(!new)>(m: Machine<S>) {
    && PathDepths(m) && PathSteps(m) && PathEnds(m)
    && (forall s, t :: EntryLaw(m, s, t))
    && (forall s, t :: DepthLaw(m, s, t))
    && (forall s :: ShallowLaw(m, s))
  }

  lemma DeploymentStep(s: Deployment, t: Deployment)
    requires t in DeploymentTransitions(s)
    ensures OnDeploymentPath(t) && t != Planned && s != DeploymentVerified ==>
      OnDeploymentPath(s) && DeploymentDepth(s) + 1 == DeploymentDepth(t)
    ensures s != DeploymentVerified && t != DeploymentFailed ==> DeploymentDepth(t) > DeploymentDepth(s)
    ensures s == DeploymentVerified ==> t == DeploymentVerified
  {
  }

  lemma DeploymentPath(s: Deployment, k: nat)
    ensures OnDeploymentPath(s) ==>
      0 <= DeploymentDepth(s) < 15 && DEPLOYMENT_PATH[DeploymentDepth(s)] == s
    ensures k < 15 ==> OnDeploymentPath(DEPLOYMENT_PATH[k]) && DeploymentDepth(DEPLOYMENT_PATH[k]) == k
    ensures k < 14 ==> DEPLOYMENT_PATH[k + 1] in DeploymentTransitions(DEPLOYMENT_PATH[k])
  {
  }

  lemma DeploymentPathDepths()
    ensures PathDepths(DEPLOYMENT)
  {
    forall s | OnDeploymentPath(s)
      ensures 0 <= DeploymentDepth(s) < 15 && DEPLOYMENT_PATH[DeploymentDepth(s)] == s
    {
      DeploymentPath(s, 0);
    }
    forall k | 0 <= k < 15
      ensures OnDeploymentPath(DEPLOYMENT_PATH[k]) && DeploymentDepth(DEPLOYMENT_PATH[k]) == k
    {
      DeploymentPath(DEPLOYMENT_PATH[k], k);
    }
  }

  lemma DeploymentPathSteps()
    ensures PathSteps(DEPLOYMENT)
  {
    forall k | 0 < k < 15
      ensures DEPLOYMENT_PATH[k] in DeploymentTransitions(DEPLOYMENT_PATH[k - 1])
    {
      DeploymentPath(DEPLOYMENT_PATH[k], k - 1);
    }
  }

  lemma DeploymentIsShallow(s: Deployment)
    ensures ShallowLaw(DEPLOYMENT, s)
  {
    assert s != DeploymentVerified ==> DeploymentDepth(s) <= 13;
  }

  lemma DeploymentTableIsLawful()
    ensures Lawful(DEPLOYMENT)
  {
    DeploymentPathDepths();
    DeploymentPathSteps();
    forall s { DeploymentIsShallow(s); }
    forall s, t
      ensures EntryLaw(DEPLOYMENT, s, t) && DepthLaw(DEPLOYMENT, s, t)
    {
      if t in DeploymentTransitions(s) {
        DeploymentStep(s, t);
      }
    }
  }

  lemma ReleaseStep(s: Release, t: Release)
    requires t in ReleaseTransitions(s)
    ensures OnReleasePath(t) && t != Created && s != ReleaseVerified ==>
      OnReleasePath(s) && ReleaseDepth(s) + 1 == ReleaseDepth(t)
    ensures s != ReleaseVerified && t != ReleaseFailed ==> ReleaseDepth(t) > ReleaseDepth(s)
    ensures s == ReleaseVerified ==> t == ReleaseVerified
  {
  }

  lemma ReleasePath(s: Release, k: nat)
    ensures OnReleasePath(s) ==>
      0 <= ReleaseDepth(s) < 13 && RELEASE_PATH[ReleaseDepth(s)] == s
    ensures k < 13 ==> OnReleasePath(RELEASE_PATH[k]) && ReleaseDepth(RELEASE_PATH[k]) == k
    ensures k < 12 ==> RELEASE_PATH[k + 1] in ReleaseTransitions(RELEASE_PATH[k])
  {
  }

  lemma ReleasePathDepths()
    ensures PathDepths(RELEASE)
  {
    forall s | OnReleasePath(s)
      ensures 0 <= ReleaseDepth(s) < 13 && RELEASE_PATH[ReleaseDepth(s)] == s
    {
      ReleasePath(s, 0);
    }
    forall k | 0 <= k < 13
      ensures OnReleasePath(RELEASE_PATH[k]) && ReleaseDepth(RELEASE_PATH[k]) == k
    {
      ReleasePath(RELEASE_PATH[k], k);
    }
  }

  lemma ReleasePathSteps()
    ensures PathSteps(RELEASE)
  {
    forall k | 0 < k < 13
      ensures RELEASE_PATH[k] in ReleaseTransitions(RELEASE_PATH[k - 1])
    {
      ReleasePath(RELEASE_PATH[k], k - 1);
    }
  }

  lemma ReleaseIsShallow(s: Release)
    ensures ShallowLaw(RELEASE, s)
  {
    assert s != ReleaseVerified ==> ReleaseDepth(s) <= 11;
  }

  lemma ReleaseTableIsLawful()
    ensures Lawful(RELEASE)
  {
    ReleasePathDepths();
    ReleasePathSteps();
    forall s { ReleaseIsShallow(s); }
    forall s, t
      ensures EntryLaw(RELEASE, s, t) && DepthLaw(RELEASE, s, t)
    {
      if t in ReleaseTransitions(s) {
        ReleaseStep(s, t);
      }
    }
  }

  // ----- What a run has passed

  lemma InitIsRun<S(!new)>(m: Machine<S>, run: seq<S>)
    requires IsRun(m, run) && |run| > 1
    ensures IsRun(m, Init(run)) && Last(run) in m.next(Last(Init(run)))
  {
  }

  /** A run that stands on the path has, since its last start, gone through exactly the statuses
      before it on the path, in that order and nothing else; only `verified` may be repeated. */
  lemma {:induction false} RunFollowsPath<S(!new)>(m: Machine<S>, run: seq<S>)
    requires Lawful(m) && IsRun(m, run) && m.onPath(Last(run))
    ensures var since := SinceStart(run, m.start);
      && m.depth(Last(run)) < |since|
      && (Last(run) != m.verified ==> |since| == m.depth(Last(run)) + 1)
      && (forall j | 0 <= j < |since| :: since[j] == if j < |m.path| then m.path[j] else m.verified)
    decreases |run|
  {
    var t := Last(run);
    if t != m.start {
      InitIsRun(m, run);
      var s := Last(Init(run));
      assert EntryLaw(m, s, t);
      RunFollowsPath(m, Init(run));
      assert m.path[m.depth(t)] == t;
    }
  }

  lemma {:induction false} SinceStartIsSuffix<S(!new)>(m: Machine<S>, run: seq<S>)
    requires IsRun(m, run)
    ensures 0 < |SinceStart(run, m.start)| <= |run|
    ensures run[|run| - |SinceStart(run, m.start)|..] == SinceStart(run, m.start)
    decreases |run|
  {
    if Last(run) != m.start {
      InitIsRun(m, run);
      SinceStartIsSuffix(m, Init(run));
    }
  }

  /** What stands behind position `d` of the path, or is `verified`, is on the path and deeper. */
  lemma LaterOnPath<S(!new)>(m: Machine<S>, d: nat, j: nat)
    requires Lawful(m) && d < |m.path| - 1 && d < j
    ensures var s := if j < |m.path| then m.path[j] else m.verified;
      m.onPath(s) && m.depth(s) > d
  {
    assert m.path[|m.path| - 1] == m.verified;
  }

  /** A run standing on the path at depth `d` or further has, since its last start, passed the path
      up to `d` in one stretch and has stayed beyond it. */
  lemma PassedPath<S(!new)>(m: Machine<S>, run: seq<S>, d: nat) returns (start: nat)
    requires Lawful(m) && IsRun(m, run) && m.onPath(Last(run))
    requires d <= m.depth(Last(run)) && d < |m.path| - 1
    ensures start + d < |run|
    ensures run[start..start + d + 1] == m.path[..d + 1]
    ensures forall i | start + d < i < |run| :: m.onPath(run[i]) && m.depth(run[i]) > d
  {
    RunFollowsPath(m, run);
    SinceStartIsSuffix(m, run);
    var since := SinceStart(run, m.start);
    start := |run| - |since|;
    assert run[start..] == since;
    assert run[start..start + d + 1] == since[..d + 1];
    assert since[..d + 1] == m.path[..d + 1];
    forall i | start + d < i < |run|
      ensures m.onPath(run[i]) && m.depth(run[i]) > d
    {
      assert run[i] == since[i - start];
      LaterOnPath(m, d, i - start);
    }
  }

  /** Whatever run led a deployment to execution or beyond, its last attempt passed preflight, the
      migration, RLS and security gates and the approval, in that order, with no failed status and
      no restart in between. */
  lemma ExecutionIsGated(run: seq<Deployment>) returns (start: nat)
    requires IsRun(DEPLOYMENT, run)
    requires Last(run) in {Executing, Executed, DeploymentVerifying, DeploymentVerified}
    ensures start + 11 < |run|
    ensures run[start..start + 12]
         == [Planned, PreflightRunning, PreflightPassed, MigrationGateRunning, MigrationGatePassed,
             RlsGateRunning, RlsGatePassed, SecurityGateRunning, SecurityGatePassed,
             AwaitingApproval, DeploymentApproved, Executing]
    ensures forall i | start + 12 <= i < |run| ::
      run[i] in {Executed, DeploymentVerifying, DeploymentVerified}
  {
    DeploymentTableIsLawful();
    start := PassedPath(DEPLOYMENT, run, 11);
    forall i | start + 12 <= i < |run|
      ensures run[i] in {Executed, DeploymentVerifying, DeploymentVerified}
    {
      assert OnDeploymentPath(run[i]) && DeploymentDepth(run[i]) > 11;
    }
  }

  /** Likewise a release that is being deployed or further, and has not failed, passed the security
      gates, the manifest, the signing and the approval since it was last created. */
  lemma ReleaseIsGated(run: seq<Release>) returns (start: nat)
    requires IsRun(RELEASE, run)
    requires Last(run) in {Deploying, Deployed, ReleaseVerifying, ReleaseVerified}
    ensures start + 9 < |run|
    ensures run[start..start + 10]
         == [Created, Building, Built, SecurityGatesRunning, SecurityGatesPassed, ManifestCreated,
             ArtifactSigned, PendingApproval, ReleaseApproved, Deploying]
    ensures forall i | start + 10 <= i < |run| ::
      run[i] in {Deployed, ReleaseVerifying, ReleaseVerified}
  {
    ReleaseTableIsLawful();
    start := PassedPath(RELEASE, run, 9);
    forall i | start + 10 <= i < |run|
      ensures run[i] in {Deployed, ReleaseVerifying, ReleaseVerified}
    {
      assert OnReleasePath(run[i]) && ReleaseDepth(run[i]) > 9;
    }
  }

  // ----- How long a run can be

  lemma {:induction false} VerifiedIsAbsorbing<S(!new)>(m: Machine<S>, run: seq<S>, i: nat, j: nat)
    requires Lawful(m) && IsRun(m, run) && i <= j < |run| && run[i] == m.verified
    ensures run[j] == m.verified
    decreases j - i
  {
    if i < j {
      VerifiedIsAbsorbing(m, run, i, j - 1);
      assert run[j] in m.next(run[j - 1]);
    }
  }

  /** `f` paths of the given length, as a sum. */
  function Rounds(length: nat, f: nat): nat {
    if f == 0 then 0 else Rounds(length, f - 1) + length
  }

  lemma {:induction false} RoundsIsProduct(length: nat, f: nat)
    ensures Rounds(length, f) == length * f
  {
    if f > 0 {
      RoundsIsProduct(length, f - 1);
      assert length * f == length * (f - 1) + length;
    }
  }

  /** A run that has not verified and has failed `f` times has taken at most `f` full paths and
      the depth of its current status. */
  lemma {:induction false} ProgressBound<S(!new)>(m: Machine<S>, run: seq<S>)
    requires Lawful(m) && IsRun(m, run) && Last(run) != m.verified
    ensures |run| - 1 <= Rounds(|m.path|, Visits(run, m.failed)) + m.depth(Last(run))
    ensures |run| - 1 <= Rounds(|m.path|, Visits(run, m.failed)) + |m.path| - 2
    decreases |run|
  {
    assert ShallowLaw(m, Last(run));
    if |run| == 1 {
      assert m.depth(m.path[0]) == 0;
      assert Init(run) == [];
    } else {
      InitIsRun(m, run);
      var s, t := Last(Init(run)), Last(run);
      assert DepthLaw(m, s, t) && ShallowLaw(m, s);
      assert s != m.verified;
      ProgressBound(m, Init(run));
      assert Visits(run, m.failed) == Visits(Init(run), m.failed) + (if t == m.failed then 1 else 0);
    }
  }

  /** The longest run with `f` failures: fail at the last moment, start over, and stop before
      verification. */
  function LongestRun<S>(m: Machine<S>, f: nat): seq<S>
    requires m.path != []
  {
    if f == 0 then Init(m.path) else Init(m.path) + [m.failed] + LongestRun(m, f - 1)
  }

  lemma {:induction false} VisitsOfConcat<S>(a: seq<S>, b: seq<S>, status: S)
    ensures Visits(a + b, status) == Visits(a, status) + Visits(b, status)
  {
    if b == [] {
      assert a + b == a;
    } else {
      assert Init(a + b) == a + Init(b);
      VisitsOfConcat(a, Init(b), status);
    }
  }

  lemma {:induction false} NoVisits<S>(run: seq<S>, status: S)
    requires status !in run
    ensures Visits(run, status) == 0
  {
    if run != [] {
      NoVisits(Init(run), status);
    }
  }

  lemma RoundIsClean<S(!new)>(m: Machine<S>)
    requires Lawful(m)
    ensures IsRun(m, Init(m.path)) && m.failed in m.next(Last(Init(m.path)))
    ensures Visits(Init(m.path), m.failed) == 0
    ensures Last(Init(m.path)) != m.verified
  {
    var round := Init(m.path);
    forall k | 0 <= k < |round|
      ensures round[k] != m.failed && round[k] != m.verified
    {
      assert m.depth(m.path[k]) == k && m.depth(m.path[|m.path| - 1]) == |m.path| - 1;
    }
    NoVisits(round, m.failed);
  }

  /** A run, a failure, and a second run from the start make one run. */
  lemma RunAfterFailure<S(!new)>(m: Machine<S>, a: seq<S>, b: seq<S>)
    requires IsRun(m, a) && IsRun(m, b)
    requires m.failed in m.next(Last(a)) && m.start in m.next(m.failed) && m.start != m.failed
    ensures IsRun(m, a + [m.failed] + b) && Last(a + [m.failed] + b) == Last(b)
    ensures Visits(a + [m.failed] + b, m.failed) == Visits(a, m.failed) + 1 + Visits(b, m.failed)
  {
    var run := a + [m.failed] + b;
    forall i | 0 < i < |run|
      ensures run[i] in m.next(run[i - 1])
    {
      if i > |a| + 1 {
        assert run[i] == b[i - |a| - 1] && run[i - 1] == b[i - |a| - 2];
      }
    }
    VisitsOfConcat(a + [m.failed], b, m.failed);
    VisitsOfConcat(a, [m.failed], m.failed);
    assert Init([m.failed]) == [];
  }

  /** The bound is reached, for every number of failures. */
  lemma {:induction false} ProgressBoundIsReached<S(!new)>(m: Machine<S>, f: nat)
    requires Lawful(m)
    ensures var run := LongestRun(m, f);
      && IsRun(m, run) && Last(run) != m.verified && Visits(run, m.failed) == f
      && |run| - 1 == Rounds(|m.path|, f) + |m.path| - 2
  {
    RoundIsClean(m);
    if f > 0 {
      ProgressBoundIsReached(m, f - 1);
      assert m.depth(m.path[0]) == 0;
      RunAfterFailure(m, Init(m.path), LongestRun(m, f - 1));
    }
  }

  /** A deployment run of n steps that is not verified, so by `VerifiedIsAbsorbing` has never been,
      and has failed f times satisfies n <= 15 f + 13; for every f some run reaches that length. */
  lemma DeploymentProgress(run: seq<Deployment>)
    requires IsRun(DEPLOYMENT, run) && Last(run) != DeploymentVerified
    ensures |run| - 1 <= 15 * Visits(run, DeploymentFailed) + 13
  {
    DeploymentTableIsLawful();
    ProgressBound(DEPLOYMENT, run);
    RoundsIsProduct(15, Visits(run, DeploymentFailed));
  }

  lemma DeploymentProgressIsTight(f: nat) returns (run: seq<Deployment>)
    ensures IsRun(DEPLOYMENT, run) && Last(run) != DeploymentVerified
    ensures Visits(run, DeploymentFailed) == f && |run| - 1 == 15 * f + 13
  {
    DeploymentTableIsLawful();
    run := LongestRun(DEPLOYMENT, f);
    ProgressBoundIsReached(DEPLOYMENT, f);
    RoundsIsProduct(15, f);
  }

  /** A release run likewise satisfies n <= 13 f + 11, with equality for some run. */
  lemma ReleaseProgress(run: seq<Release>)
    requires IsRun(RELEASE, run) && Last(run) != ReleaseVerified
    ensures |run| - 1 <= 13 * Visits(run, ReleaseFailed) + 11
  {
    ReleaseTableIsLawful();
    ProgressBound(RELEASE, run);
    RoundsIsProduct(13, Visits(run, ReleaseFailed));
  }

  lemma ReleaseProgressIsTight(f: nat) returns (run: seq<Release>)
    ensures IsRun(RELEASE, run) && Last(run) != ReleaseVerified
    ensures Visits(run, ReleaseFailed) == f && |run| - 1 == 13 * f + 11
  {
    ReleaseTableIsLawful();
    run := LongestRun(RELEASE, f);
    ProgressBoundIsReached(RELEASE, f);
    RoundsIsProduct(13, f);
  }

  // ----- The tables, edge by edge

  /** The gate whose failure a status reports. */
  function FailedGate(t: Deployment): Deployment {
    match t
    case PreflightFailed => PreflightRunning
    case MigrationGateFailed => MigrationGateRunning
    case RlsGateFailed => RlsGateRunning
    case SecurityGateFailed => SecurityGateRunning
    case _ => t
  }

  /** A status of the path is entered along the path, from itself if it is the last, and the first also
      from FAILED and ROLLED_BACK; and from nowhere else. */
  lemma DeploymentEntries(s: Deployment, t: Deployment)
    requires OnDeploymentPath(t)
    ensures t in DeploymentTransitions(s) <==>
      || (OnDeploymentPath(s) && DeploymentDepth(t) == DeploymentDepth(s) + 1)
      || (s == t && s == DeploymentVerified)
      || (t == Planned && (s == DeploymentFailed || s == DeploymentRolledBack))
  {
  }

  /** A gate's failure is entered from the running gate; FAILED from a failed gate and from a status that
      waits, executes or verifies; ROLLED_BACK from nowhere. */
  lemma DeploymentFailures(s: Deployment, t: Deployment)
    requires !OnDeploymentPath(t)
    ensures t in DeploymentTransitions(s) <==>
      || (FailedGate(t) != t && s == FailedGate(t))
      || (t == DeploymentFailed &&
            (FailedGate(s) != s || s == AwaitingApproval || s == Executing || s == DeploymentVerifying))
  {
  }

  /** For releases likewise. */
  lemma ReleaseEntries(s: Release, t: Release)
    requires OnReleasePath(t)
    ensures t in ReleaseTransitions(s) <==>
      || (OnReleasePath(s) && ReleaseDepth(t) == ReleaseDepth(s) + 1)
      || (s == t && s == ReleaseVerified)
      || (t == Created && (s == ReleaseFailed || s == ReleaseRolledBack))
  {
  }

  /** REJECTED comes from PENDING_APPROVAL, and building, deploying and verifying can fail. */
  lemma ReleaseFailures(s: Release, t: Release)
    requires !OnReleasePath(t)
    ensures t in ReleaseTransitions(s) <==>
      || (t == SecurityGatesFailed && s == SecurityGatesRunning) || (t == Rejected && s == PendingApproval)
      || (t == ReleaseFailed &&
            (s == SecurityGatesFailed || s == Rejected || s == Building || s == Deploying || s == ReleaseVerifying))
  {
  }

  /** From every failed status of either machine a run is back at the start after at most two steps, and
      can do nothing else. */
  lemma FailuresLeadBack(d: Deployment, r: Release)
    ensures !OnDeploymentPath(d) ==>
      DeploymentTransitions(d) == {Planned}
      || (DeploymentTransitions(d) == {DeploymentFailed} && DeploymentTransitions(DeploymentFailed) == {Planned})
    ensures !OnReleasePath(r) ==>
      ReleaseTransitions(r) == {Created}
      || (ReleaseTransitions(r) == {ReleaseFailed} && ReleaseTransitions(ReleaseFailed) == {Created})
  {
  }
}
