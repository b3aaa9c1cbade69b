/**
 The training jobs of the hotword manager (internal/hotwordtrain/jobs.go, manager.go): any number of
 callers may start a job at any time, and each accepted start runs as its own thread whose status
 updates, all made under the manager's lock, interleave with everything else.
 */
module TrainingModel {
  import opened Text
  import Machine

  datatype Phase = Idle | Running | Completed | Failed

  datatype Status = Status(phase: Phase, stage: string, progress: int)

  const MAX_PROGRESS := 100
  const IDLE_STATUS := Status(Idle, "idle", 0)
  const QUEUED := Status(Running, "queued", 1)
  const FAILED := Status(Failed, "failed", MAX_PROGRESS)
  const COMPLETED := Status(Completed, "complete", MAX_PROGRESS)

  /** Where a job's thread is: after the last status it has written. */
  datatype Job =
    | TrainQueued
    | TrainPrepared
    | PipelineQueued
    | PipelineGenerating
    | PipelineResolving
    | PipelineTrainerGenerating
    | PipelineTraining
    | PipelineDeploying

  /** The status a job sets next, over the current one, and where it is then: None when its thread is over. */
  predicate Moves(job: Job, current: Status, w: Status, next: Option<Job>) {
    match job
    case TrainQueued =>
      (w == FAILED && next == None)
      || (w == current.(stage := "preparing", progress := 5) && next == Some(TrainPrepared))
    case TrainPrepared =>
      ((w == FAILED || w == COMPLETED) && next == None)
      || (w == Status(Running, "training", 55) && next == Some(TrainPrepared))
    case PipelineQueued =>
      (w == FAILED && next == None)
      || (w == Status(Running, "voice-clone-generation", 10) && next == Some(PipelineGenerating))
      || (w == Status(Running, "trainer-resolve", 40) && next == Some(PipelineResolving))
    case PipelineGenerating =>
      w == Status(Running, "trainer-resolve", 40) && next == Some(PipelineResolving)
    case PipelineResolving =>
      (w == FAILED && next == None)
      || (w == Status(Running, "trainer-resolve", 45) && next == Some(PipelineResolving))
      || (w == Status(Running, "trainer-generate", 58) && next == Some(PipelineTrainerGenerating))
      || (w == Status(Running, "trainer-stage", 68) && next == Some(PipelineTraining))
    case PipelineTrainerGenerating =>
      (w == FAILED && next == None)
      || (w == Status(Running, "trainer-generate", 58) && next == Some(PipelineTrainerGenerating))
      || (w == Status(Running, "trainer-stage", 68) && next == Some(PipelineTraining))
    case PipelineTraining =>
      ((w == FAILED || w == COMPLETED) && next == None)
      || (w == Status(Running, "trainer-train", 82) && next == Some(PipelineTraining))
      || (w == Status(Running, "deploy", 95) && next == Some(PipelineDeploying))
    case PipelineDeploying =>
      (w == FAILED || w == COMPLETED) && next == None
  }

  /** A status together with the number of the start it belongs to. */
  datatype Entry = Entry(run: nat, status: Status)

  /** `jobs` are the threads alive; `history` holds every status ever set, the current one last. */
  datatype State = State(jobs: seq<Job>, runs: nat, history: seq<Entry>)

  datatype Action =
    | Start(pipeline: bool)
    | Write(thread: nat, status: Status, next: Option<Job>)

  const INIT := State([], 0, [Entry(0, IDLE_STATUS)])

  function Current(s: State): Status
    requires s.history != []
  {
    s.history[|s.history| - 1].status
  }

  predicate Enabled(s: State, a: Action)
    requires s.history != []
  {
    match a
    case Start(_) => true
    case Write(thread, status, next) => thread < |s.jobs| && Moves(s.jobs[thread], Current(s), status, next)
  }

  /** A start is refused while the status is running. */
  predicate Refused(s: State, a: Action)
    requires s.history != []
  {
    a.Start? && Current(s).phase == Running
  }

  function Step(s: State, a: Action): (t: State)
    requires s.history != [] && Enabled(s, a)
    ensures t.history != []
  {
    if Refused(s, a) then s else
      match a
      case Start(pipeline) =>
        State(s.jobs + [if pipeline then PipelineQueued else TrainQueued], s.runs + 1,
              s.history + [Entry(s.runs + 1, QUEUED)])
      case Write(thread, status, next) =>
        var rest := s.jobs[..thread] + (if next.Some? then [next.value] else []) + s.jobs[thread + 1..];
        // a thread does not know which start it belongs to: it overwrites the one current status
        State(rest, s.runs, s.history + [Entry(s.runs, status)])
  }

  /** Everything a job can still write has at least this progress. */
  function Floor(job: Job): int {
    match job
    case TrainQueued => 5
    case TrainPrepared => 55
    case PipelineQueued => 10
    case PipelineGenerating => 40
    case PipelineResolving => 45
    case PipelineTrainerGenerating => 58
    case PipelineTraining => 82
    case PipelineDeploying => 100
  }

  /** What may come after a status: in the same run no less progress, or else a new run, once this one is over. */
  predicate Follows(a: Entry, b: Entry) {
    if a.run == b.run then a.status.phase == Running && a.status.progress <= b.status.progress
    else b.run == a.run + 1 && a.status.phase != Running && b.status == QUEUED
  }

  predicate ProgressFits(status: Status) {
    && 0 <= status.progress <= MAX_PROGRESS
    && (status.phase == Running ==> status.progress < MAX_PROGRESS)
    && (status.phase == Completed || status.phase == Failed ==> status.progress == MAX_PROGRESS)
  }

  ghost predicate Orderly(history: seq<Entry>) {
    && history != [] && history[0] == Entry(0, IDLE_STATUS)
    && (forall i :: 0 <= i < |history| ==> ProgressFits(history[i].status))
    && (forall i :: 0 < i < |history| ==> Follows(history[i - 1], history[i]))
  }

  ghost predicate Inv(s: State) {
    && Orderly(s.history)
    && s.history[|s.history| - 1].run == s.runs
    && |s.jobs| <= 1
    && (Current(s).phase == Running <==> |s.jobs| == 1)
    && (|s.jobs| == 1 ==> Current(s).progress <= Floor(s.jobs[0]))
  }

  lemma MovesForward(job: Job, current: Status, w: Status, next: Option<Job>)
    requires Moves(job, current, w, next) && current.phase == Running
    ensures Floor(job) <= w.progress && ProgressFits(w)
    ensures w.phase == Running <==> next.Some?
    ensures next.Some? ==> w.progress <= Floor(next.value)
  {
  }

  lemma StepKeepsInv(s: State, a: Action)
    requires Inv(s) && Enabled(s, a)
    ensures Inv(Step(s, a))
  {
    if a.Write? {
      MovesForward(s.jobs[a.thread], Current(s), a.status, a.next);
      assert s.jobs[..a.thread] == [] && s.jobs[a.thread + 1..] == [];
    }
  }

  predicate Next(s: State, a: Action, t: State) {
    s.history != [] && Enabled(s, a) && t == Step(s, a)
  }

  ghost predicate Run(actions: seq<Action>, s: State) {
    Machine.Run(INIT, Next, actions, s)
  }

  lemma RunKeepsInv(actions: seq<Action>, s: State)
    requires Run(actions, s)
    ensures Inv(s)
  {
    forall s, a, t | Inv(s) && Next(s, a, t)
      ensures Inv(t)
    {
      StepKeepsInv(s, a);
    }
    Machine.RunKeeps(INIT, Next, x => Inv(x), actions, s);
  }

  /** However starts and jobs interleave, at most one training thread is alive, and the status tells whether. */
  lemma {:induction false} OneJobAtATime(actions: seq<Action>, s: State)
    requires Run(actions, s)
    ensures s.history != [] && |s.jobs| <= 1 && (Current(s).phase == Running <==> |s.jobs| == 1)
  {
    RunKeepsInv(actions, s);
  }

  /** Runs do not overlap; within one, progress never falls and nothing follows its end. */
  predicate InOrder(a: Entry, b: Entry) {
    && a.run <= b.run
    && (a.run == b.run ==> a.status.phase == Running && a.status.progress <= b.status.progress)
  }

  lemma {:induction false} OrderlyPairs(history: seq<Entry>, i: nat, j: nat)
    requires Orderly(history) && i < j < |history|
    ensures InOrder(history[i], history[j])
    decreases j
  {
    assert Follows(history[j - 1], history[j]);
    if i < j - 1 {
      OrderlyPairs(history, i, j - 1);
    }
  }

  /** Over a whole run of the program: of any two statuses the earlier belongs to no later run and no later stage. */
  lemma HistoryIsOrdered(actions: seq<Action>, s: State, i: nat, j: nat)
    requires Run(actions, s) && i < j < |s.history|
    ensures InOrder(s.history[i], s.history[j])
    ensures ProgressFits(s.history[i].status)
  {
    RunKeepsInv(actions, s);
    OrderlyPairs(s.history, i, j);
  }

  /** Progress is a percentage; a status that is not running any more has all of it, and the first one says idle. */
  lemma ProgressIsPercent(actions: seq<Action>, s: State, i: nat)
    requires Run(actions, s) && i < |s.history|
    ensures var status := s.history[i].status;
            && 0 <= status.progress <= 100
            && (status.phase == Running ==> status.progress < 100)
            && (status.phase == Completed || status.phase == Failed ==> status.progress == 100)
            && (i == 0 ==> status == Status(Idle, "idle", 0))
            && (status.phase == Completed ==> i > 0 && s.history[i - 1].status.phase == Running)
  {
    RunKeepsInv(actions, s);
    if i > 0 {
      assert Follows(s.history[i - 1], s.history[i]);
    }
  }

  // ----- one job's thread -----

  function Last(current: Status, writes: seq<Status>): Status {
    if writes == [] then current else writes[|writes| - 1]
  }

  /** A thread at `job` can set these statuses, one after the other, and be at `end` then. */
  ghost predicate Path(job: Job, current: Status, writes: seq<Status>, end: Option<Job>)
    decreases |writes|
  {
    if writes == [] then end == Some(job)
    else
      var before := writes[..|writes| - 1];
      exists mid ::
        Path(job, current, before, Some(mid)) && Moves(mid, Last(current, before), writes[|writes| - 1], end)
  }

  lemma PathGrows(job: Job, current: Status, writes: seq<Status>, mid: Job, w: Status, end: Option<Job>)
    requires Path(job, current, writes, Some(mid)) && Moves(mid, Last(current, writes), w, end)
    ensures Path(job, current, writes + [w], end)
  {
    assert (writes + [w])[..|writes|] == writes;
  }

  lemma PathLast(job: Job, current: Status, writes: seq<Status>, end: Option<Job>) returns (mid: Job)
    requires writes != [] && Path(job, current, writes, end)
    ensures var before := writes[..|writes| - 1];
            && Path(job, current, before, Some(mid)) && Moves(mid, Last(current, before), writes[|writes| - 1], end)
            && before + [writes[|writes| - 1]] == writes
  {
    var before := writes[..|writes| - 1];
    mid :| Path(job, current, before, Some(mid)) && Moves(mid, Last(current, before), writes[|writes| - 1], end);
  }

  function Entries(run: nat, writes: seq<Status>): (es: seq<Entry>)
    ensures |es| == |writes| && forall i :: 0 <= i < |es| ==> es[i] == Entry(run, writes[i])
  {
    seq(|writes|, i requires 0 <= i < |writes| => Entry(run, writes[i]))
  }

  /** The machine after the only thread has set these statuses. */
  function Advanced(s: State, writes: seq<Status>, end: Option<Job>): State {
    State(if end.Some? then [end.value] else [], s.runs, s.history + Entries(s.runs, writes))
  }

  lemma AdvancedOnce(s: State, before: seq<Status>, mid: Job, w: Status, end: Option<Job>)
    requires s.history != [] && Moves(mid, Last(Current(s), before), w, end)
    ensures var t := Advanced(s, before, Some(mid));
            && t.history != [] && Enabled(t, Write(0, w, end))
            && Step(t, Write(0, w, end)) == Advanced(s, before + [w], end)
  {
    assert s.history + Entries(s.runs, before + [w]) == (s.history + Entries(s.runs, before)) + [Entry(s.runs, w)];
  }

  lemma NotAdvanced(s: State, job: Job)
    requires s.jobs == [job]
    ensures Advanced(s, [], Some(job)) == s
  {
    assert s.history + Entries(s.runs, []) == s.history;
  }

  lemma AdvancedRuns(actions: seq<Action>, some: seq<Action>, s: State, before: seq<Status>, mid: Job, w: Status,
                     end: Option<Job>)
    requires s.history != [] && Moves(mid, Last(Current(s), before), w, end)
    requires Run(actions + some, Advanced(s, before, Some(mid)))
    ensures Run(actions + (some + [Write(0, w, end)]), Advanced(s, before + [w], end))
  {
    AdvancedOnce(s, before, mid, w, end);
    Machine.RunGrows(INIT, Next, actions + some, Advanced(s, before, Some(mid)), Write(0, w, end),
                     Advanced(s, before + [w], end));
    assert actions + (some + [Write(0, w, end)]) == (actions + some) + [Write(0, w, end)];
  }

  /** What a thread does on its own is a run of the machine: the statuses it sets become history. */
  lemma {:induction false} PathIsARun(actions: seq<Action>, s: State, job: Job, writes: seq<Status>, end: Option<Job>)
    returns (more: seq<Action>)
    requires Run(actions, s) && s.history != [] && s.jobs == [job] && Path(job, Current(s), writes, end)
    ensures Run(actions + more, Advanced(s, writes, end))
    decreases |writes|
  {
    if writes == [] {
      more := [];
      NotAdvanced(s, job);
      assert actions + more == actions;
    } else {
      var before, w := writes[..|writes| - 1], writes[|writes| - 1];
      var mid := PathLast(job, Current(s), writes, end);
      var some := PathIsARun(actions, s, job, before, Some(mid));
      AdvancedRuns(actions, some, s, before, mid, w, end);
      more := some + [Write(0, w, end)];
    }
  }
}

/** The training jobs together with the broadcast of their statuses. */
module HotwordTraining {
  import T = TrainingModel
  import B = StatusBroadcast
  import Machine

  /** Status number v of the broadcast is the v-th entry of the training history. */
  datatype State = State(training: T.State, broadcast: B.State)

  /** A training action takes the manager's lock and publishes, unless it is a refused start. */
  datatype Action = Training(t: T.Action) | Broadcast(b: B.Action)

  const INIT := State(T.INIT, B.INIT)

  predicate Enabled(s: State, a: Action) {
    match a
    case Training(t) => s.training.history != [] && s.broadcast.lock.Free? && T.Enabled(s.training, t)
    case Broadcast(b) => !b.Publish? && B.Enabled(s.broadcast, b)
  }

  function Step(s: State, a: Action): State
    requires Enabled(s, a)
  {
    match a
    case Training(t) =>
      State(T.Step(s.training, t),
            if T.Refused(s.training, t) then s.broadcast else B.Step(s.broadcast, B.Publish))
    case Broadcast(b) => s.(broadcast := B.Step(s.broadcast, b))
  }

  predicate Next(s: State, a: Action, t: State) {
    Enabled(s, a) && t == Step(s, a)
  }

  ghost predicate Run(actions: seq<Action>, s: State) {
    Machine.Run(INIT, Next, actions, s)
  }

  ghost predicate Inv(s: State) {
    T.Inv(s.training) && B.Inv(s.broadcast) && |s.training.history| == s.broadcast.latest + 1
  }

  lemma StepKeepsInv(s: State, a: Action)
    requires Inv(s) && Enabled(s, a)
    ensures Inv(Step(s, a))
  {
    match a
    case Training(t) =>
      T.StepKeepsInv(s.training, t);
      B.StepKeepsInv(s.broadcast, B.Publish);
    case Broadcast(b) =>
      B.StepKeepsInv(s.broadcast, b);
  }

  lemma RunKeepsInv(actions: seq<Action>, s: State)
    requires Run(actions, s)
    ensures Inv(s)
  {
    forall s, a, t | Inv(s) && Next(s, a, t)
      ensures Inv(t)
    {
      StepKeepsInv(s, a);
    }
    Machine.RunKeeps(INIT, Next, x => Inv(x), actions, s);
  }

  /**
   Whatever a watcher of the training receives, it sees runs one after the other, in each run progress
   that never falls, and after the end of a run nothing more of it.
   */
  lemma WatcherSeesRunsInOrder(actions: seq<Action>, s: State, id: nat, i: nat, j: nat)
    requires Run(actions, s) && id in s.broadcast.chans && i < j < |s.broadcast.chans[id].got|
    ensures var got := s.broadcast.chans[id].got;
            && got[j] < |s.training.history| && got[i] < got[j]
            && T.InOrder(s.training.history[got[i]], s.training.history[got[j]])
  {
    RunKeepsInv(actions, s);
    var ch := s.broadcast.chans[id];
    assert B.GoodChan(ch, s.broadcast.latest);
    assert ch.Stream()[i] == ch.got[i] && ch.Stream()[j] == ch.got[j];
    T.OrderlyPairs(s.training.history, ch.got[i], ch.got[j]);
  }

  /** Somebody watches with this id and has not stopped since. */
  ghost predicate Watches(actions: seq<Action>, id: nat) {
    Machine.Since(actions, Broadcast(B.Subscribe(id)), Broadcast(B.Unsubscribe(id)))
  }

  lemma {:induction false} WatchersAre(actions: seq<Action>, s: State, id: nat)
    requires Run(actions, s)
    ensures if Watches(actions, id) then B.Listens(s.broadcast, id) else B.IsGone(s.broadcast, id)
    decreases |actions|
  {
    if actions != [] {
      var n := |actions| - 1;
      var before := Machine.LastAction(INIT, Next, actions, s);
      WatchersAre(actions[..n], before, id);
      Machine.SinceOneMore(actions[..n], actions[n], Broadcast(B.Subscribe(id)), Broadcast(B.Unsubscribe(id)));
      match actions[n] {
        case Training(t) =>
          if !T.Refused(before.training, t) {
            B.StepSubscribes(before.broadcast, B.Publish, id);
          }
        case Broadcast(b) => B.StepSubscribes(before.broadcast, b, id);
      }
    }
  }

  /** And when it has received all there is and no update is under way, what it saw last is the current status. */
  lemma WatcherIsUpToDate(actions: seq<Action>, s: State, id: nat)
    requires Run(actions, s) && s.broadcast.lock.Free? && Watches(actions, id)
    ensures id in s.broadcast.chans
    ensures s.broadcast.chans[id].buffer == [] ==>
              var got := s.broadcast.chans[id].got;
              && got != [] && got[|got| - 1] == |s.training.history| - 1
              && s.training.history[got[|got| - 1]].status == T.Current(s.training)
  {
    RunKeepsInv(actions, s);
    WatchersAre(actions, s, id);
    var ch := s.broadcast.chans[id];
    if ch.buffer == [] {
      assert B.Served(ch, id, s.broadcast.latest, s.broadcast.lock) && ch.Stream() == ch.got;
    }
  }
}

/** The manager's training methods; `written` records every status that is set. */
module TrainingManager {
  import opened Sequences
  import opened Text
  import opened TrainingModel

  function ClampProgress(progress: int): (r: int)
    ensures 0 <= r <= MAX_PROGRESS && (0 <= progress <= MAX_PROGRESS ==> r == progress)
  {
    if progress < 0 then 0 else if progress > MAX_PROGRESS then MAX_PROGRESS else progress
  }

  /** What the work of a pipeline comes to: `models` are there to clone a voice, `latest` is a trained model. */
  datatype Pipeline = Pipeline(
    prepared: bool, models: bool, resolveLines: nat, resolved: bool, generateLines: nat, generated: bool,
    staged: bool, trainLines: nat, trained: bool, deploy: bool, deployed: bool)

  /** A running status for each of so many lines. */
  function Lines(stage: string, progress: int, n: nat): (ss: seq<Status>)
    ensures |ss| == n && forall i :: 0 <= i < n ==> ss[i] == Status(Running, stage, progress)
  {
    seq(n, i => Status(Running, stage, progress))
  }

  /** The statuses of a training job, after it was queued. */
  function TrainingStatuses(current: Status, prepared: bool, lines: nat, trained: bool): seq<Status> {
    if !prepared then [FAILED]
    else [current.(stage := "preparing", progress := 5)] + Lines("training", 55, lines)
         + [if trained then COMPLETED else FAILED]
  }

  /** The statuses of a pipeline up to the end of its trainer's first step, which must work for it to go on. */
  function ResolveStatuses(p: Pipeline): seq<Status> {
    (if p.models then [Status(Running, "voice-clone-generation", 10)] else [])
    + ([Status(Running, "trainer-resolve", 40)] + Lines("trainer-resolve", 45, p.resolveLines))
  }

  function DeployStatuses(p: Pipeline): seq<Status> {
    if !p.deploy then [COMPLETED]
    else [Status(Running, "deploy", 95)] + [if p.deployed then COMPLETED else FAILED]
  }

  /** From the end of staging on. */
  function TrainStatuses(p: Pipeline): seq<Status> {
    [Status(Running, "trainer-stage", 68)]
    + (Lines("trainer-train", 82, p.trainLines) + if p.trained then DeployStatuses(p) else [FAILED])
  }

  function GenerateStatuses(p: Pipeline): seq<Status> {
    Lines("trainer-generate", 58, p.generateLines) + if p.generated && p.staged then TrainStatuses(p) else [FAILED]
  }

  function PipelineStatuses(p: Pipeline): seq<Status> {
    if !p.prepared then [FAILED] else ResolveStatuses(p) + if p.resolved then GenerateStatuses(p) else [FAILED]
  }

  predicate Succeeds(p: Pipeline) {
    p.prepared && p.resolved && p.generated && p.staged && p.trained && (p.deploy ==> p.deployed)
  }

  class Manager {
    var training: Status
    ghost var written: seq<Status>

    constructor ()
      ensures training == IDLE_STATUS && written == []
    {
      training, written := IDLE_STATUS, [];
    }

    /** A thread that began at `job`, when the status was `start`, has got to `here`; `before` was written by then. */
    ghost predicate Went(job: Job, start: Status, before: seq<Status>, here: Option<Job>)
      reads this
    {
      && before <= written
      && Path(job, start, written[|before|..], here)
      && training == Last(start, written[|before|..])
    }

    /** setTrainingLocked */
    method SetTraining(status: Status)
      modifies this
      ensures training == status.(progress := ClampProgress(status.progress))
      ensures written == old(written) + [training]
    {
      training := status.(progress := ClampProgress(status.progress));
      written := written + [training];
    }

    /** StartTraining and StartPipeline, up to the point where the job's thread begins. */
    method Start() returns (accepted: bool)
      modifies this
      ensures accepted == (old(training).phase != Running)
      ensures accepted ==> training == QUEUED && written == old(written) + [QUEUED]
      ensures !accepted ==> unchanged(this)
    {
      if training.phase == Running {
        return false;
      }
      SetTraining(Status(Running, "queued", 1));
      accepted := true;
    }

    /** Sets the next status of a thread that is at `here`. */
    method Advance(status: Status, ghost job: Job, ghost start: Status, ghost before: seq<Status>, ghost here: Job,
                   ghost next: Option<Job>)
      requires Went(job, start, before, Some(here)) && Moves(here, training, status, next)
      requires 0 <= status.progress <= MAX_PROGRESS
      modifies this
      ensures Went(job, start, before, next) && training == status && written == old(written) + [status]
    {
      ghost var writes := written[|before|..];
      SetTraining(status);
      PathGrows(job, start, writes, here, status, next);
      assert written[|before|..] == writes + [status];
    }

    /** updateTrainingPipeline */
    method Update(stage: string, progress: int, ghost job: Job, ghost start: Status, ghost before: seq<Status>,
                  ghost here: Job, ghost next: Job)
      requires Went(job, start, before, Some(here)) && 0 <= progress <= MAX_PROGRESS
      requires Moves(here, training, Status(Running, stage, progress), Some(next))
      modifies this
      ensures Went(job, start, before, Some(next)) && training == Status(Running, stage, progress)
      ensures written == old(written) + [training]
    {
      Advance(training.(phase := Running, stage := stage, progress := progress), job, start, before, here, Some(next));
    }

    /** failTrainingPipeline */
    method Fail(ghost job: Job, ghost start: Status, ghost before: seq<Status>, ghost here: Job)
      requires Went(job, start, before, Some(here)) && Moves(here, training, FAILED, None)
      modifies this
      ensures Went(job, start, before, None) && training == FAILED && written == old(written) + [FAILED]
    {
      Advance(training.(phase := Failed, stage := "failed", progress := MAX_PROGRESS), job, start, before, here, None);
    }

    method Complete(ghost job: Job, ghost start: Status, ghost before: seq<Status>, ghost here: Job)
      requires Went(job, start, before, Some(here)) && Moves(here, training, COMPLETED, None)
      modifies this
      ensures Went(job, start, before, None) && training == COMPLETED && written == old(written) + [COMPLETED]
    {
      Advance(training.(phase := Completed, stage := "complete", progress := MAX_PROGRESS), job, start, before, here,
              None);
    }

    /** runTrainingCommand: one status for each line that the command prints. */
    method LogLines(stage: string, progress: int, lines: nat, ghost job: Job, ghost start: Status,
                    ghost before: seq<Status>, ghost here: Job, ghost next: Job)
      requires Went(job, start, before, Some(here)) && 0 <= progress <= MAX_PROGRESS
      requires forall current :: Moves(here, current, Status(Running, stage, progress), Some(next))
      requires forall current :: Moves(next, current, Status(Running, stage, progress), Some(next))
      modifies this
      ensures Went(job, start, before, Some(if lines == 0 then here else next))
      ensures written == old(written) + Lines(stage, progress, lines)
    {
      var i := 0;
      while i < lines
        invariant i <= lines && Went(job, start, before, Some(if i == 0 then here else next))
        invariant written == old(written) + Lines(stage, progress, i)
      {
        Update(stage, progress, job, start, before, if i == 0 then here else next, next);
        i := i + 1;
      }
    }

    /** runTraining: preparing may fail, the command prints some lines and may fail. */
    method RunTraining(prepared: bool, lines: nat, trained: bool)
      modifies this
      ensures Went(TrainQueued, old(training), old(written), None)
      ensures training == if prepared && trained then COMPLETED else FAILED
      ensures written == old(written) + TrainingStatuses(old(training), prepared, lines, trained)
    {
      ghost var start, before := training, written;
      assert written[|before|..] == [];
      if !prepared {
        Fail(TrainQueued, start, before, TrainQueued);
        return;
      }
      Advance(training.(stage := "preparing", progress := 5), TrainQueued, start, before, TrainQueued,
              Some(TrainPrepared));
      LogLines("training", 55, lines, TrainQueued, start, before, TrainPrepared, TrainPrepared);
      if !trained {
        Fail(TrainQueued, start, before, TrainPrepared);
        return;
      }
      Complete(TrainQueued, start, before, TrainPrepared);
    }

    /** The end of runPipeline, after training. */
    method Deploy(p: Pipeline, ghost start: Status, ghost before: seq<Status>)
      requires Went(PipelineQueued, start, before, Some(PipelineTraining))
      modifies this
      ensures Went(PipelineQueued, start, before, None) && written == old(written) + DeployStatuses(p)
      ensures training == if p.deploy && !p.deployed then FAILED else COMPLETED
    {
      if p.deploy {
        Update("deploy", 95, PipelineQueued, start, before, PipelineTraining, PipelineDeploying);
        if !p.deployed {
          Fail(PipelineQueued, start, before, PipelineDeploying);
          return;
        }
      }
      Complete(PipelineQueued, start, before, if p.deploy then PipelineDeploying else PipelineTraining);
    }

    /** runPipeline, from the staged data on. */
    method Train(p: Pipeline, ghost start: Status, ghost before: seq<Status>, ghost here: Job)
      requires Went(PipelineQueued, start, before, Some(here)) && here in {PipelineResolving, PipelineTrainerGenerating}
      modifies this
      ensures Went(PipelineQueued, start, before, None) && written == old(written) + TrainStatuses(p)
      ensures training == if p.trained && (p.deploy ==> p.deployed) then COMPLETED else FAILED
    {
      Update("trainer-stage", 68, PipelineQueued, start, before, here, PipelineTraining);
      ghost var staged := written;
      LogLines("trainer-train", 82, p.trainLines, PipelineQueued, start, before, PipelineTraining, PipelineTraining);
      ghost var lines := Lines("trainer-train", 82, p.trainLines);
      Regroup(staged, lines, if p.trained then DeployStatuses(p) else [FAILED]);
      Regroup(old(written), [Status(Running, "trainer-stage", 68)],
              lines + if p.trained then DeployStatuses(p) else [FAILED]);
      if !p.trained {
        Fail(PipelineQueued, start, before, PipelineTraining);
        return;
      }
      Deploy(p, start, before);
    }

    /** runPipeline, from the trainer's second step on. */
    method Generate(p: Pipeline, ghost start: Status, ghost before: seq<Status>)
      requires Went(PipelineQueued, start, before, Some(PipelineResolving))
      modifies this
      ensures Went(PipelineQueued, start, before, None) && written == old(written) + GenerateStatuses(p)
      ensures training == if p.generated && p.staged && p.trained && (p.deploy ==> p.deployed) then COMPLETED else FAILED
    {
      LogLines("trainer-generate", 58, p.generateLines, PipelineQueued, start, before, PipelineResolving,
               PipelineTrainerGenerating);
      ghost var here := if p.generateLines == 0 then PipelineResolving else PipelineTrainerGenerating;
      Regroup(old(written), Lines("trainer-generate", 58, p.generateLines),
              if p.generated && p.staged then TrainStatuses(p) else [FAILED]);
      if !p.generated || !p.staged {
        Fail(PipelineQueued, start, before, here);
        return;
      }
      Train(p, start, before, here);
    }

    /** runPipeline, once prepared and up to the end of the trainer's first step. */
    method Resolve(p: Pipeline, ghost start: Status, ghost before: seq<Status>)
      requires Went(PipelineQueued, start, before, Some(PipelineQueued))
      modifies this
      ensures Went(PipelineQueued, start, before, Some(PipelineResolving)) && written == old(written) + ResolveStatuses(p)
    {
      if p.models {
        Update("voice-clone-generation", 10, PipelineQueued, start, before, PipelineQueued, PipelineGenerating);
      }
      ghost var cloned := written;
      Update("trainer-resolve", 40, PipelineQueued, start, before,
             if p.models then PipelineGenerating else PipelineQueued, PipelineResolving);
      LogLines("trainer-resolve", 45, p.resolveLines, PipelineQueued, start, before, PipelineResolving,
               PipelineResolving);
      Regroup(cloned, [Status(Running, "trainer-resolve", 40)], Lines("trainer-resolve", 45, p.resolveLines));
      Regroup(old(written), if p.models then [Status(Running, "voice-clone-generation", 10)] else [],
              [Status(Running, "trainer-resolve", 40)] + Lines("trainer-resolve", 45, p.resolveLines));
    }

    /** runPipeline */
    method RunPipeline(p: Pipeline)
      modifies this
      ensures Went(PipelineQueued, old(training), old(written), None)
      ensures training == if Succeeds(p) then COMPLETED else FAILED
      ensures written == old(written) + PipelineStatuses(p)
    {
      ghost var start, before := training, written;
      assert written[|before|..] == [];
      if !p.prepared {
        Fail(PipelineQueued, start, before, PipelineQueued);
        return;
      }
      Resolve(p, start, before);
      Regroup(before, ResolveStatuses(p), if p.resolved then GenerateStatuses(p) else [FAILED]);
      if !p.resolved {
        Fail(PipelineQueued, start, before, PipelineResolving);
        return;
      }
      Generate(p, start, before);
    }
  }
}
