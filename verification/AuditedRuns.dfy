/** The interleavings of `Operations` once more, with every event written out in full: each segment
    that writes appends to one audit log the event that the service builds from its input, under the
    audit id and at the time of that moment. */
module AuditedRuns {
  import opened CodeUnits
  import opened Evidence
  import opened Sorting
  import opened AuditLog
  import Operations
  import opened AuditedCalls

  // ----- Requests

  datatype Request =
    | Executing(execution: ExecutionRequest, input: Operations.ExecutionInput, fault: Operations.Fault)
    | RollingBack(rollback: RollbackRequest, artifactVerified: bool, schemaCompatible: bool)
    | Recovering(recovery: RecoveryRequest, steps: seq<RecoveryStep>, measuredMs: int)
    | Verifying(backup: BackupRequest, nowMs: int)

  datatype Job = Job(request: Request, notes: Notes)

  function OperationOf(request: Request): Operations.Operation {
    match request
    case Executing(_, input, fault) => Operations.Execution(input, fault)
    case RollingBack(_, artifactVerified, schemaCompatible) =>
      Operations.RollbackTo(artifactVerified, schemaCompatible)
    case Recovering(_, steps, _) => Operations.Recovery(PartsOf(steps))
    case Verifying(backup, nowMs) => VerificationOf(backup, nowMs)
  }

  function CorrelationOf(request: Request): JsString {
    match request
    case Executing(execution, _, _) => execution.correlationId
    case RollingBack(rollback, _, _) => rollback.correlationId
    case Recovering(recovery, _, _) => recovery.correlationId
    case Verifying(backup, _) => backup.correlationId
  }

  /** What a job hands to the audit service with an outcome. */
  function AuditOf(job: Job, result: Outcome): (input: AuditInput)
    ensures input.action == Operations.ActionOf(OperationOf(job.request))
    ensures input.result == result && input.correlationId == CorrelationOf(job.request)
  {
    match job.request
    case Executing(execution, input, _) => ExecutionAudit(execution, input.environment, job.notes, result)
    case RollingBack(rollback, _, _) => RollbackAudit(rollback, job.notes, result)
    case Recovering(recovery, _, measuredMs) => RecoveryAudit(recovery, measuredMs, job.notes, result)
    case Verifying(backup, _) => BackupAudit(backup, job.notes, result)
  }

  // ----- Runs

  /** The id and the moment of a recording. */
  datatype Stamp = Stamp(auditId: JsString, nowMs: int)

  datatype Post = Post(caller: nat, stamp: Stamp, event: Event)
  datatype Active = Active(job: Job, pc: nat)
  datatype World = World(jobs: seq<Active>, posts: seq<Post>)
  datatype Move = Start(job: Job, stamp: Stamp) | Continue(caller: nat, stamp: Stamp)

  const EMPTY: World := World([], [])

  function SegmentsOf(active: Active): seq<Operations.Emission> {
    Operations.Segments(OperationOf(active.job.request))
  }

  predicate Possible(world: World, move: Move) {
    move.Continue? ==>
      move.caller < |world.jobs| && world.jobs[move.caller].pc < |SegmentsOf(world.jobs[move.caller])|
  }

  function PostsOf(caller: nat, job: Job, emission: Operations.Emission, stamp: Stamp, lower: Lower): seq<Post> {
    if emission.Silent? then []
    else [Post(caller, stamp, EventOf(AuditOf(job, emission.result), stamp.auditId, stamp.nowMs, lower))]
  }

  /** Running the next segment of a job. */
  function Proceed(world: World, caller: nat, stamp: Stamp, lower: Lower): World
    requires caller < |world.jobs| && world.jobs[caller].pc < |SegmentsOf(world.jobs[caller])|
  {
    var active := world.jobs[caller];
    World(world.jobs[caller := active.(pc := active.pc + 1)],
          world.posts + PostsOf(caller, active.job, SegmentsOf(active)[active.pc], stamp, lower))
  }

  function Perform(world: World, move: Move, lower: Lower): World {
    if !Possible(world, move) then world
    else match move
      case Start(job, stamp) => Proceed(World(world.jobs + [Active(job, 0)], world.posts), |world.jobs|, stamp, lower)
      case Continue(caller, stamp) => Proceed(world, caller, stamp, lower)
  }

  function Play(world: World, moves: seq<Move>, lower: Lower): World
    decreases |moves|
  {
    if moves == [] then world else Play(Perform(world, moves[0], lower), moves[1..], lower)
  }

  /** The audit log: the events alone. */
  function Events(posts: seq<Post>): seq<Event> {
    seq(|posts|, i requires 0 <= i < |posts| => posts[i].event)
  }

  function Ids(posts: seq<Post>): seq<JsString> {
    seq(|posts|, i requires 0 <= i < |posts| => posts[i].stamp.auditId)
  }

  function Clock(posts: seq<Post>): seq<int> {
    seq(|posts|, i requires 0 <= i < |posts| => posts[i].stamp.nowMs)
  }

  function Own(posts: seq<Post>, caller: nat): seq<Post> {
    Filter(posts, (post: Post) => post.caller == caller)
  }

  // ----- They are the interleavings of the bare protocol

  function CallOf(request: Request): Operations.Call {
    Operations.Call(OperationOf(request), CorrelationOf(request))
  }

  function EntryOf(post: Post): Operations.Entry {
    Operations.Entry(post.caller, post.event.action, post.event.result, post.event.correlationId)
  }

  function Bare(world: World): Operations.State {
    Operations.State(
      seq(|world.jobs|, i requires 0 <= i < |world.jobs| =>
        Operations.Running(CallOf(world.jobs[i].job.request), world.jobs[i].pc)),
      Entries(world.posts))
  }

  function Entries(posts: seq<Post>): seq<Operations.Entry> {
    seq(|posts|, i requires 0 <= i < |posts| => EntryOf(posts[i]))
  }

  function StepOf(move: Move): Operations.Step {
    match move
    case Start(job, _) => Operations.Begin(CallOf(job.request))
    case Continue(caller, _) => Operations.Resume(caller)
  }

  function StepsOf(moves: seq<Move>): seq<Operations.Step> {
    seq(|moves|, i requires 0 <= i < |moves| => StepOf(moves[i]))
  }

  lemma EntriesOfPosts(posts: seq<Post>, caller: nat, job: Job, emission: Operations.Emission, stamp: Stamp,
                       lower: Lower)
    ensures Entries(posts + PostsOf(caller, job, emission, stamp, lower))
         == Entries(posts) + Operations.EntriesOf(caller, CallOf(job.request), emission)
  {
  }

  lemma ProceedIsAdvance(world: World, caller: nat, stamp: Stamp, lower: Lower)
    requires caller < |world.jobs| && world.jobs[caller].pc < |SegmentsOf(world.jobs[caller])|
    ensures Bare(Proceed(world, caller, stamp, lower)) == Operations.Advance(Bare(world), caller)
  {
    var active := world.jobs[caller];
    EntriesOfPosts(world.posts, caller, active.job, SegmentsOf(active)[active.pc], stamp, lower);
    assert Bare(Proceed(world, caller, stamp, lower)).calls == Operations.Advance(Bare(world), caller).calls;
  }

  lemma PerformIsApply(world: World, move: Move, lower: Lower)
    ensures Bare(Perform(world, move, lower)) == Operations.Apply(Bare(world), StepOf(move))
  {
    if Possible(world, move) {
      if move.Start? {
        var started := World(world.jobs + [Active(move.job, 0)], world.posts);
        ProceedIsAdvance(started, |world.jobs|, move.stamp, lower);
        assert Bare(started).calls == Bare(world).calls + [Operations.Running(CallOf(move.job.request), 0)];
      } else {
        ProceedIsAdvance(world, move.caller, move.stamp, lower);
      }
    }
  }

  /** Forgetting all but four fields of every event turns a run into one of the bare protocol, so what
      holds of every interleaving there holds of the audit log. */
  lemma {:induction false} PlayIsRun(world: World, moves: seq<Move>, lower: Lower)
    ensures Bare(Play(world, moves, lower)) == Operations.Run(Bare(world), StepsOf(moves))
    decreases |moves|
  {
    if moves != [] {
      PerformIsApply(world, moves[0], lower);
      PlayIsRun(Perform(world, moves[0], lower), moves[1..], lower);
      assert StepsOf(moves)[1..] == StepsOf(moves[1..]);
    }
  }

  // ----- Every field of every event

  /** The event is what the service makes of its job's input for its outcome. */
  ghost predicate Genuine(world: World, post: Post, lower: Lower) {
    && post.caller < |world.jobs|
    && post.event == EventOf(AuditOf(world.jobs[post.caller].job, post.event.result),
                             post.stamp.auditId, post.stamp.nowMs, lower)
  }

  ghost predicate AllGenuine(world: World, lower: Lower) {
    forall post | post in world.posts :: Genuine(world, post, lower)
  }

  lemma ProceedKeepsGenuine(world: World, caller: nat, stamp: Stamp, lower: Lower)
    requires caller < |world.jobs| && world.jobs[caller].pc < |SegmentsOf(world.jobs[caller])|
    requires AllGenuine(world, lower)
    ensures AllGenuine(Proceed(world, caller, stamp, lower), lower)
  {
    var after := Proceed(world, caller, stamp, lower);
    assert forall i | 0 <= i < |world.jobs| :: after.jobs[i].job == world.jobs[i].job;
    forall post | post in after.posts
      ensures Genuine(after, post, lower)
    {
      assert post in world.posts ==> Genuine(world, post, lower);
    }
  }

  lemma PerformKeepsGenuine(world: World, move: Move, lower: Lower)
    requires AllGenuine(world, lower)
    ensures AllGenuine(Perform(world, move, lower), lower)
  {
    if Possible(world, move) {
      if move.Start? {
        var started := World(world.jobs + [Active(move.job, 0)], world.posts);
        forall post | post in started.posts
          ensures Genuine(started, post, lower)
        {
          assert Genuine(world, post, lower);
        }
        ProceedKeepsGenuine(started, |world.jobs|, move.stamp, lower);
      } else {
        ProceedKeepsGenuine(world, move.caller, move.stamp, lower);
      }
    }
  }

  lemma {:induction false} PlayKeepsGenuine(world: World, moves: seq<Move>, lower: Lower)
    requires AllGenuine(world, lower)
    ensures AllGenuine(Play(world, moves, lower), lower)
    decreases |moves|
  {
    if moves != [] {
      PerformKeepsGenuine(world, moves[0], lower);
      PlayKeepsGenuine(Perform(world, moves[0], lower), moves[1..], lower);
    }
  }

  lemma OwnOfSnoc(posts: seq<Post>, post: Post, caller: nat)
    ensures Own(posts + [post], caller) == Own(posts, caller) + (if post.caller == caller then [post] else [])
  {
    FilterOfSnoc(posts, post, (p: Post) => p.caller == caller);
  }

  /** The outcomes of a caller's own events are its trace. */
  lemma {:induction false} OwnIsTrace(posts: seq<Post>, caller: nat)
    ensures |Own(posts, caller)| == |Operations.Trace(Entries(posts), caller)|
    ensures forall i | 0 <= i < |Own(posts, caller)| ::
              Own(posts, caller)[i].event.result == Operations.Trace(Entries(posts), caller)[i]
  {
    if posts != [] {
      var init, last := posts[..|posts| - 1], posts[|posts| - 1];
      OwnIsTrace(init, caller);
      OwnOfSnoc(init, last, caller);
      assert posts == init + [last];
      Operations.TraceOfExtension(Entries(init), EntryOf(last), caller);
      assert Entries(posts) == Entries(init) + [EntryOf(last)];
    }
  }

  lemma OwnMembers(world: World, caller: nat, post: Post, lower: Lower)
    requires AllGenuine(world, lower) && post in Own(world.posts, caller)
    ensures post.caller == caller && Genuine(world, post, lower)
  {
    FilterMembers(world.posts, (p: Post) => p.caller == caller, post);
  }

  /** Every own event is what the service makes of the job's input for the outcome at its place in the
      script. */
  ghost predicate Follows(own: seq<Post>, job: Job, script: seq<Outcome>, lower: Lower) {
    && |own| <= |script|
    && forall i | 0 <= i < |own| ::
         own[i].event == EventOf(AuditOf(job, script[i]), own[i].stamp.auditId, own[i].stamp.nowMs, lower)
  }

  lemma FollowingIsRecorded(own: seq<Post>, job: Job, script: seq<Outcome>, lower: Lower)
    requires Follows(own, job, script, lower)
    ensures Events(own) == Recorded(script[..|own|], r => AuditOf(job, r), Ids(own), Clock(own), lower)
  {
    var recorded := Recorded(script[..|own|], r => AuditOf(job, r), Ids(own), Clock(own), lower);
    forall i | 0 <= i < |own|
      ensures Events(own)[i] == recorded[i]
    {
      assert own[i].event == EventOf(AuditOf(job, script[i]), own[i].stamp.auditId, own[i].stamp.nowMs, lower);
    }
  }

  /** The bare protocol, seen on the own events of a job. */
  lemma OwnOutcomes(moves: seq<Move>, lower: Lower, caller: nat)
    requires caller < |Play(EMPTY, moves, lower).jobs|
    ensures var world := Play(EMPTY, moves, lower);
      var script := Operations.Script(OperationOf(world.jobs[caller].job.request));
      && |Own(world.posts, caller)| <= |script|
      && forall i | 0 <= i < |Own(world.posts, caller)| :: Own(world.posts, caller)[i].event.result == script[i]
  {
    PlayIsRun(EMPTY, moves, lower);
    assert Bare(EMPTY) == Operations.IDLE;
    Operations.CallsFollowTheirScript(StepsOf(moves), caller);
    OwnIsTrace(Play(EMPTY, moves, lower).posts, caller);
  }

  lemma OwnEventsFollow(moves: seq<Move>, lower: Lower, caller: nat)
    requires caller < |Play(EMPTY, moves, lower).jobs|
    ensures var world := Play(EMPTY, moves, lower);
      var job := world.jobs[caller].job;
      Follows(Own(world.posts, caller), job, Operations.Script(OperationOf(job.request)), lower)
  {
    var world := Play(EMPTY, moves, lower);
    var own := Own(world.posts, caller);
    OwnOutcomes(moves, lower, caller);
    PlayKeepsGenuine(EMPTY, moves, lower);
    forall post | post in own
      ensures post.caller == caller && Genuine(world, post, lower)
    {
      OwnMembers(world, caller, post, lower);
    }
  }

  /** In every interleaving the events that one job has recorded are, in all their fields, a beginning
      of what it records when nothing is interleaved. */
  lemma OwnEventsFollowTheScript(moves: seq<Move>, lower: Lower, caller: nat)
    requires caller < |Play(EMPTY, moves, lower).jobs|
    ensures var world := Play(EMPTY, moves, lower);
      var own, job := Own(world.posts, caller), world.jobs[caller].job;
      var script := Operations.Script(OperationOf(job.request));
      && |own| <= |script|
      && Events(own) == Recorded(script[..|own|], r => AuditOf(job, r), Ids(own), Clock(own), lower)
  {
    var world := Play(EMPTY, moves, lower);
    var own, job := Own(world.posts, caller), world.jobs[caller].job;
    OwnEventsFollow(moves, lower, caller);
    FollowingIsRecorded(own, job, Operations.Script(OperationOf(job.request)), lower);
  }

  /** In every interleaving, an EXECUTED event in the audit log is, in all its fields, that of a request
      whose input passed every gate. */
  lemma ExecutedEventsAreCleared(moves: seq<Move>, lower: Lower, post: Post)
    requires post in Play(EMPTY, moves, lower).posts
    requires post.event.action == DeploymentExecution && post.event.result == Executed
    ensures var jobs := Play(EMPTY, moves, lower).jobs;
      && post.caller < |jobs|
      && var job := jobs[post.caller].job;
      && job.request.Executing? && Operations.Cleared(job.request.input)
      && post.event
           == EventOf(ExecutionAudit(job.request.execution, job.request.input.environment, job.notes, Executed),
                      post.stamp.auditId, post.stamp.nowMs, lower)
  {
    var world := Play(EMPTY, moves, lower);
    PlayIsRun(EMPTY, moves, lower);
    PlayKeepsGenuine(EMPTY, moves, lower);
    assert Bare(EMPTY) == Operations.IDLE && Genuine(world, post, lower);
    var i :| 0 <= i < |world.posts| && world.posts[i] == post;
    assert Entries(world.posts)[i] == EntryOf(post);
    Operations.ExecutedOnlyWhenCleared(StepsOf(moves), EntryOf(post));
  }

  // ----- What a query returns

  lemma {:induction false} SelectedEvents(posts: seq<Post>, caller: nat, id: JsString)
    requires forall post | post in posts :: post.event.correlationId == id <==> post.caller == caller
    ensures OfCorrelation(Events(posts), id) == Events(Own(posts, caller))
  {
    if posts != [] {
      var init, last := posts[..|posts| - 1], posts[|posts| - 1];
      assert posts == init + [last] && last in posts;
      SelectedEvents(init, caller, id);
      OwnOfSnoc(init, last, caller);
      FilterOfSnoc(Events(init), last.event, (e: Event) => e.correlationId == id);
      assert Events(posts) == Events(init) + [last.event];
    }
  }

  /** In every interleaving, asking the audit log for a correlation id that only one job uses gives a
      beginning of what that job records alone, in all its fields: no event of another job, none
      missing, none out of order. */
  lemma QueryReturnsTheJob(moves: seq<Move>, lower: Lower, caller: nat)
    requires caller < |Play(EMPTY, moves, lower).jobs|
    requires var jobs := Play(EMPTY, moves, lower).jobs;
      forall other | 0 <= other < |jobs| && other != caller ::
        CorrelationOf(jobs[other].job.request) != CorrelationOf(jobs[caller].job.request)
    ensures var world := Play(EMPTY, moves, lower);
      var own, job := Own(world.posts, caller), world.jobs[caller].job;
      var script := Operations.Script(OperationOf(job.request));
      && |own| <= |script|
      && OfCorrelation(Events(world.posts), CorrelationOf(job.request))
           == Recorded(script[..|own|], r => AuditOf(job, r), Ids(own), Clock(own), lower)
  {
    var world := Play(EMPTY, moves, lower);
    var id := CorrelationOf(world.jobs[caller].job.request);
    PlayKeepsGenuine(EMPTY, moves, lower);
    forall post | post in world.posts
      ensures post.event.correlationId == id <==> post.caller == caller
    {
      assert Genuine(world, post, lower);
    }
    SelectedEvents(world.posts, caller, id);
    OwnEventsFollowTheScript(moves, lower, caller);
  }
}
