/**
 Starting and finishing a recording: tasks that take the recorder out of the application, work on it with
 the lock released, and put it back. What the operating system answers is an input of the steps.
 */
module RecordingProtocol {
  import opened Procs
  import opened RecordingRun
  import Tracking
  import opened Wrappers

  const DUMP_IDLE_MS := 15_000

  datatype Phase = Idle | Starting | Recording | Finishing

  datatype Recorder = Recorder(path: Option<string>, running: bool, startedMs: Option<nat>)

  const NO_RECORDER := Recorder(None, false, None)

  /** What a start reads of the application: the selected process as far as it is the one selected, and its group. */
  datatype Request = Request(filtered: bool, captureOn: bool, process: Option<ProcInfo>, group: seq<int>,
                             instances: set<Identity>, path: string, dropped: nat)

  datatype Task =
    | StartTask(recorder: Recorder, request: Request)
    | FinishTask(recorder: Recorder, meta: Option<Meta>, droppedAtStart: nat, automatic: bool)

  datatype AppState = AppState(phase: Phase, dump: Recorder, meta: Option<Meta>, droppedAtStart: nat, lastAlive: nat,
                               autoStopped: Option<string>)

  const FIRST := AppState(Idle, NO_RECORDER, None, 0, 0, None)

  predicate MayStart(a: AppState, r: Request) {
    && a.phase == Idle && r.captureOn
    && (r.filtered ==> r.process.Some? && r.process.value.started != 0)
    && |r.group| <= Tracking.MAX_DUMP_PROCS
  }

  /** A start takes the recorder, unless it is refused. */
  function BeginStart(a: AppState, r: Request): (AppState, Option<Task>) {
    if !MayStart(a, r) then (a, None)
    else (a.(phase := Starting, dump := NO_RECORDER), Some(StartTask(a.dump, r)))
  }

  /** The recorder after a start, and whether it succeeded. A running one refuses. */
  function Launched(d: Recorder, path: string, ok: bool, now: nat): (Recorder, bool) {
    if d.running then (d, false)
    else if ok then (Recorder(Some(path), true, Some(now)), true)
    else (d, false)
  }

  /** The metadata a recording begins with. */
  function MetaOf(r: Request, started: nat): Meta {
    Meta(r.filtered, started, r.instances, map[], false)
  }

  /** The recorder comes back; with it running, what the history shows of the time is remembered. */
  function EndStart(a: AppState, d: Recorder, ok: bool, r: Request, now: nat, seen: seq<Event>): AppState {
    if !ok then a.(phase := Idle, dump := d)
    else
      var t := d.startedMs.Or(Some(now)).value;
      AppState(Recording, d, Some(After(MetaOf(r, t), seen)), r.dropped, t, None)
  }

  predicate MayFinish(a: AppState, automatic: bool, failed: bool, now: nat) {
    && a.phase == Recording
    && (automatic ==>
          || failed
          || (a.meta.Some? && a.meta.value.onlyGroup && now - a.lastAlive > DUMP_IDLE_MS)
          || (a.meta.Some? && a.meta.value.limitReached))
  }

  /** A finish takes the recorder and the metadata; the path stays in sight meanwhile. */
  function BeginFinish(a: AppState, automatic: bool, failed: bool, now: nat, seen: seq<Event>): (AppState, Option<Task>) {
    if !MayFinish(a, automatic, failed, now) then (a, None)
    else
      var meta := if a.meta.Some? then Some(After(a.meta.value, seen)) else None;
      (a.(phase := Finishing, dump := NO_RECORDER.(path := a.dump.path), meta := None),
       Some(FinishTask(a.dump, meta, a.droppedAtStart, automatic)))
  }

  function Stopped(d: Recorder): Recorder {
    if d.running then d.(running := false, startedMs := None) else d
  }

  function EndFinish(a: AppState, d: Recorder, automatic: bool): AppState {
    a.(phase := Idle, dump := d, autoStopped := if automatic then d.path else a.autoStopped)
  }

  /** A poll: rows are seen, processes join, the group shows life. */
  function Polled(a: AppState, seen: seq<Event>, lastAlive: nat): AppState {
    if a.meta.None? then a else a.(meta := Some(After(a.meta.value, seen)), lastAlive := lastAlive)
  }

  // The application itself.

  class App {
    var phase: Phase
    var dump: Recorder
    var dumpMeta: Option<Meta>
    var droppedAtStart: nat
    var lastAlive: nat
    var autoStopped: Option<string>

    constructor ()
      ensures State() == FIRST
    {
      phase, dump, dumpMeta, droppedAtStart, lastAlive, autoStopped := Idle, NO_RECORDER, None, 0, 0, None;
    }

    function State(): AppState
      reads this
    {
      AppState(phase, dump, dumpMeta, droppedAtStart, lastAlive, autoStopped)
    }

    method TakeForStart(r: Request) returns (task: Option<Task>)
      modifies this
      ensures (State(), task) == BeginStart(old(State()), r)
    {
      if phase != Idle { return None; }
      if !r.captureOn { return None; }
      if r.filtered && (r.process.None? || r.process.value.started == 0) { return None; }
      if |r.group| > Tracking.MAX_DUMP_PROCS { return None; }
      phase := Starting;
      task := Some(StartTask(dump, r));
      dump := NO_RECORDER;
    }

    method ReturnStarted(d: Recorder, ok: bool, r: Request, now: nat, seen: seq<Event>)
      modifies this
      ensures State() == EndStart(old(State()), d, ok, r, now, seen)
    {
      dump := d;
      if !ok {
        phase := Idle;
        return;
      }
      var t := if dump.startedMs.Some? then dump.startedMs.value else now;
      dumpMeta := Some(MetaOf(r, t));
      droppedAtStart := r.dropped;
      lastAlive := t;
      phase := Recording;
      autoStopped := None;
      dumpMeta := Some(After(dumpMeta.value, seen));
    }

    method TakeForFinish(automatic: bool, failed: bool, now: nat, seen: seq<Event>) returns (task: Option<Task>)
      modifies this
      ensures (State(), task) == BeginFinish(old(State()), automatic, failed, now, seen)
    {
      if phase != Recording { return None; }
      if automatic {
        var idle := dumpMeta.Some? && dumpMeta.value.onlyGroup && now - lastAlive > DUMP_IDLE_MS;
        var capped := dumpMeta.Some? && dumpMeta.value.limitReached;
        if !failed && !idle && !capped { return None; }
      }
      phase := Finishing;
      if dumpMeta.Some? { dumpMeta := Some(After(dumpMeta.value, seen)); }
      task := Some(FinishTask(dump, dumpMeta, droppedAtStart, automatic));
      dump := NO_RECORDER.(path := dump.path);
      dumpMeta := None;
    }

    method ReturnFinished(d: Recorder, automatic: bool)
      modifies this
      ensures State() == EndFinish(old(State()), d, automatic)
    {
      dump := d;
      phase := Idle;
      if automatic { autoStopped := d.path; }
    }

    method Poll(seen: seq<Event>, alive: nat)
      modifies this
      ensures State() == Polled(old(State()), seen, alive)
    {
      if dumpMeta.None? { return; }
      dumpMeta := Some(After(dumpMeta.value, seen));
      lastAlive := alive;
    }
  }

  // Interleavings.

  /** Nothing was missed: all accepted packets are accounted for, nothing was dropped since the start, the
      limits were not hit, and the capture stopped in order. */
  predicate Complete(t: Task, accounted: bool, dropped: nat, stopped: bool)
    requires t.FinishTask?
  {
    accounted && stopped && dropped <= t.droppedAtStart && t.meta.Some? && !t.meta.value.limitReached
  }

  /** A recording as it was finished. */
  datatype Finished = Finished(path: Option<string>, meta: Option<Meta>, complete: bool)

  /** The application, the tasks that work with the lock released, and what was started and finished so far. */
  datatype Machine = Machine(app: AppState, tasks: map<nat, Task>, started: seq<string>, finished: seq<Finished>)

  const INITIAL := Machine(FIRST, map[], [], [])

  datatype Op =
    | AskStart(id: nat, request: Request)
    | StartEnds(id: nat, ok: bool, now: nat, seen: seq<Event>)
    | AskFinish(id: nat, automatic: bool, failed: bool, now: nat, seen: seq<Event>)
    | FinishSees(id: nat, seen: seq<Event>)
    | FinishEnds(id: nat, accounted: bool, dropped: nat, stopped: bool)
    | Poll(seen: seq<Event>, lastAlive: nat)

  function Spawned(m: Machine, id: nat, next: (AppState, Option<Task>)): Machine {
    if next.1.Some? then m.(app := next.0, tasks := m.tasks[id := next.1.value]) else m.(app := next.0)
  }

  /** One step of one task; a task takes a number that is free. */
  function Step(m: Machine, op: Op): Machine {
    match op
    case AskStart(id, request) => if id in m.tasks then m else Spawned(m, id, BeginStart(m.app, request))
    case StartEnds(id, ok, now, seen) =>
      if id !in m.tasks || !m.tasks[id].StartTask? then m
      else
        var r := m.tasks[id].request;
        var (d, up) := Launched(m.tasks[id].recorder, r.path, ok, now);
        m.(app := EndStart(m.app, d, up, r, now, seen), tasks := m.tasks - {id},
           started := if up then m.started + [r.path] else m.started)
    case AskFinish(id, automatic, failed, now, seen) =>
      if id in m.tasks then m else Spawned(m, id, BeginFinish(m.app, automatic, failed, now, seen))
    case FinishSees(id, seen) =>
      if id !in m.tasks || !m.tasks[id].FinishTask? || m.tasks[id].meta.None? then m
      else
        var t := m.tasks[id];
        m.(tasks := m.tasks[id := FinishTask(t.recorder, Some(After(t.meta.value, seen)), t.droppedAtStart, t.automatic)])
    case FinishEnds(id, accounted, dropped, stopped) =>
      if id !in m.tasks || !m.tasks[id].FinishTask? then m
      else
        var t := m.tasks[id];
        var d := Stopped(t.recorder);
        m.(app := EndFinish(m.app, d, t.automatic), tasks := m.tasks - {id},
           finished := m.finished + [Finished(d.path, t.meta, Complete(t, accounted, dropped, stopped))])
    case Poll(seen, lastAlive) => m.(app := Polled(m.app, seen, lastAlive))
  }

  function Run(ops: seq<Op>): Machine {
    if ops == [] then INITIAL else Step(Run(ops[..|ops| - 1]), ops[|ops| - 1])
  }

  /** The finished recordings are the started ones, in order, up to some point. */
  ghost predicate InOrder(m: Machine) {
    |m.finished| <= |m.started| && forall i | 0 <= i < |m.finished| :: m.finished[i].path == Some(m.started[i])
  }

  ghost predicate Last(m: Machine, path: Option<string>) {
    m.started != [] && path == Some(m.started[|m.started| - 1]) && |m.finished| == |m.started| - 1
  }

  /** Who holds the recorder, phase by phase: the application, or the one task there is. */
  ghost predicate Sound(m: Machine) {
    && InOrder(m)
    && (m.app.meta.Some? <==> m.app.phase == Recording)
    && (m.app.dump.running <==> m.app.phase == Recording)
    && match m.app.phase
       case Idle => m.tasks == map[] && |m.finished| == |m.started|
       case Recording => m.tasks == map[] && Last(m, m.app.dump.path)
       case Starting =>
         && |m.finished| == |m.started|
         && exists id :: m.tasks.Keys == {id} && m.tasks[id].StartTask? && !m.tasks[id].recorder.running
       case Finishing =>
         exists id ::
           && m.tasks.Keys == {id} && m.tasks[id].FinishTask? && m.tasks[id].recorder.running
           && m.tasks[id].meta.Some? && Last(m, m.tasks[id].recorder.path)
           && m.app.dump.path == m.tasks[id].recorder.path
  }

  lemma FirstSound()
    ensures Sound(INITIAL)
  {}

  lemma AskSound(m: Machine, op: Op)
    requires Sound(m) && (op.AskStart? || op.AskFinish?)
    ensures Sound(Step(m, op))
  {
    hide After;
    assert m.app.phase == Idle || m.app.phase == Recording ==> m.tasks == map[];
    assert m.tasks == map[] ==> Step(m, op).tasks.Keys <= {op.id};
    if Step(m, op).app.phase != m.app.phase {
      assert Step(m, op).tasks.Keys == {op.id};
    }
  }

  lemma StartEndsSound(m: Machine, op: Op)
    requires Sound(m) && op.StartEnds?
    ensures Sound(Step(m, op))
  {
    hide After;
    if op.id in m.tasks && m.tasks[op.id].StartTask? {
      assert m.tasks.Keys == {op.id};
      assert (m.tasks - {op.id}).Keys == {};
    }
  }

  lemma FinishSound(m: Machine, op: Op)
    requires Sound(m) && (op.FinishSees? || op.FinishEnds?)
    ensures Sound(Step(m, op))
  {
    hide After;
    if op.id in m.tasks && m.tasks[op.id].FinishTask? {
      assert m.tasks.Keys == {op.id};
      assert (m.tasks - {op.id}).Keys == {};
      assert op.FinishSees? ==> Step(m, op).tasks.Keys == {op.id};
    }
  }

  lemma StepSound(m: Machine, op: Op)
    requires Sound(m)
    ensures Sound(Step(m, op))
  {
    hide Step, Sound;
    match op
    case AskStart(_, _) => AskSound(m, op);
    case AskFinish(_, _, _, _, _) => AskSound(m, op);
    case StartEnds(_, _, _, _) => StartEndsSound(m, op);
    case FinishSees(_, _) => FinishSound(m, op);
    case FinishEnds(_, _, _, _) => FinishSound(m, op);
    case Poll(_, _) => PollSound(m, op);
  }

  lemma PollSound(m: Machine, op: Op)
    requires Sound(m) && op.Poll?
    ensures Sound(Step(m, op))
  {
    hide After;
  }

  lemma {:induction false} RunSound(ops: seq<Op>)
    ensures Sound(Run(ops))
  {
    hide Step, Sound;
    if ops == [] {
      FirstSound();
    } else {
      RunSound(ops[..|ops| - 1]);
      StepSound(Run(ops[..|ops| - 1]), ops[|ops| - 1]);
    }
  }

  /** The recorder that runs, if there is one, is in one place. */
  function Running(m: Machine): set<nat> {
    set id | id in m.tasks && m.tasks[id].recorder.running
  }

  /** In every interleaving metadata exists exactly while recording, at most one task is under way, a running
      recorder is with the application exactly while recording and otherwise with the finishing task alone. */
  lemma OneRecorder(ops: seq<Op>)
    ensures var m := Run(ops);
            && (m.app.meta.Some? <==> m.app.phase == Recording)
            && |m.tasks| <= 1 && (m.tasks == map[] <==> m.app.phase == Idle || m.app.phase == Recording)
            && (m.app.dump.running <==> m.app.phase == Recording)
            && |Running(m)| == if m.app.phase == Finishing then 1 else 0
  {
    hide Step, Run;
    RunSound(ops);
    var m := Run(ops);
    assert |m.tasks| == |m.tasks.Keys|;
    if m.app.phase == Finishing {
      var id :| m.tasks.Keys == {id} && m.tasks[id].recorder.running;
      assert Running(m) == {id};
    } else {
      assert Running(m) == {};
    }
  }

  /** Every successful start is finished at most once, in order and with its own path; when nothing is under
      way, every one has been. */
  lemma FinishedOnce(ops: seq<Op>)
    ensures var m := Run(ops);
            && |m.started| - 1 <= |m.finished| <= |m.started|
            && (forall i | 0 <= i < |m.finished| :: m.finished[i].path == Some(m.started[i]))
            && (|m.finished| == |m.started| <==> m.app.phase == Idle || m.app.phase == Starting)
  {
    hide Step, Run;
    RunSound(ops);
  }

  /** The step is refused. A start needs an idle application that captures, for one process the selected process with a
      start time, and a group that fits; a finish needs a recording, and on its own account also a failed recorder, a
      group without life for more than fifteen seconds, or a limit that was hit. */
  ghost predicate Refused(m: Machine, op: Op) {
    match op
    case AskStart(id, r) =>
      || id in m.tasks || m.app.phase != Idle || !r.captureOn || |r.group| > 4096
      || (r.filtered && (r.process.None? || r.process.value.started == 0))
    case AskFinish(id, automatic, failed, now, _) =>
      || id in m.tasks || m.app.phase != Recording
      || (automatic && !failed
          && (m.app.meta.None? || !m.app.meta.value.onlyGroup || now <= m.app.lastAlive + 15_000)
          && (m.app.meta.None? || !m.app.meta.value.limitReached))
    case _ => false
  }

  /** An operation is refused exactly when it starts no task, and then nothing changes at all; accepted, it
      is the only one under way. */
  lemma RefusedChangesNothing(ops: seq<Op>, op: Op)
    requires op.AskStart? || op.AskFinish?
    ensures Refused(Run(ops), op) <==> Step(Run(ops), op) == Run(ops)
    ensures !Refused(Run(ops), op) ==> Run(ops).tasks == map[] && Step(Run(ops), op).tasks.Keys == {op.id}
  {
    hide Run, After;
    RunSound(ops);
    assert map[op.id := 0].Keys == {op.id};
  }

  /** A finishing task always has a file and metadata, and what it reports is the recording started last. */
  lemma FinishHasFileAndMetadata(ops: seq<Op>, id: nat)
    requires id in Run(ops).tasks && Run(ops).tasks[id].FinishTask?
    ensures var m := Run(ops);
            && m.tasks[id].meta.Some? && m.started != []
            && m.tasks[id].recorder.path == m.app.dump.path == Some(m.started[|m.started| - 1])
  {
    hide Step, Run;
    RunSound(ops);
  }

  // The metadata of a recording is all that was seen since its start.

  /** The start ended well in the last step. */
  predicate Begins(m: Machine, op: Op) {
    op.StartEnds? && op.id in m.tasks && m.tasks[op.id].StartTask? && Launched(m.tasks[op.id].recorder,
                                                                              m.tasks[op.id].request.path, op.ok, op.now).1
  }

  /** What the step lets the recording see. */
  function SeenBy(m: Machine, op: Op): seq<Event> {
    match op
    case AskFinish(id, automatic, failed, now, seen) =>
      if id !in m.tasks && MayFinish(m.app, automatic, failed, now) then seen else []
    case FinishSees(id, seen) => if id in m.tasks && m.tasks[id].FinishTask? then seen else []
    case Poll(seen, _) => if m.app.meta.Some? then seen else []
    case _ => []
  }

  datatype Beginning = Beginning(request: Request, at: nat)

  /** The last start that succeeded: what was asked for, and when the recorder ran. */
  ghost function LastStart(ops: seq<Op>): Option<Beginning> {
    if ops == [] then None
    else
      var init, op := ops[..|ops| - 1], ops[|ops| - 1];
      if Begins(Run(init), op) then Some(Beginning(Run(init).tasks[op.id].request, op.now)) else LastStart(init)
  }

  /** Everything the steps since that start let it see. */
  ghost function SeenSince(ops: seq<Op>): seq<Event> {
    if ops == [] then []
    else
      var init, op := ops[..|ops| - 1], ops[|ops| - 1];
      if Begins(Run(init), op) then op.seen else SeenSince(init) + SeenBy(Run(init), op)
  }

  lemma {:induction false} AfterSum(m: Meta, a: seq<Event>, b: seq<Event>)
    ensures After(m, a + b) == After(After(m, a), b)
    decreases |b|
  {
    hide Next;
    if b == [] {
      assert a + b == a;
    } else {
      assert (a + b)[..|a + b| - 1] == a + b[..|b| - 1];
      AfterSum(m, a, b[..|b| - 1]);
    }
  }

  /** The metadata, with the application or with the finishing task, and the losses counted at the start. */
  ghost predicate IsHistory(m: Machine, start: Option<Beginning>, seen: seq<Event>) {
    && (m.app.phase == Recording ==>
          && start.Some? && m.app.meta == Some(After(MetaOf(start.value.request, start.value.at), seen))
          && m.app.droppedAtStart == start.value.request.dropped)
    && forall id | id in m.tasks && m.tasks[id].FinishTask? ::
         && start.Some? && m.tasks[id].meta == Some(After(MetaOf(start.value.request, start.value.at), seen))
         && m.tasks[id].droppedAtStart == start.value.request.dropped
  }

  lemma BeginIsHistory(m: Machine, op: Op)
    requires Sound(m) && Begins(m, op)
    ensures IsHistory(Step(m, op), Some(Beginning(m.tasks[op.id].request, op.now)), op.seen)
  {
    hide After;
    assert m.tasks.Keys == {op.id};
  }

  lemma StepIsHistory(m: Machine, op: Op, start: Option<Beginning>, seen: seq<Event>)
    requires Sound(m) && IsHistory(m, start, seen) && !Begins(m, op)
    ensures IsHistory(Step(m, op), start, seen + SeenBy(m, op))
  {
    hide After, Complete;
    if start.Some? {
      AfterSum(MetaOf(start.value.request, start.value.at), seen, SeenBy(m, op));
    }
    assert seen + [] == seen;
  }

  lemma {:induction false} RunIsHistory(ops: seq<Op>)
    ensures IsHistory(Run(ops), LastStart(ops), SeenSince(ops))
  {
    hide Step, IsHistory, Begins, SeenBy;
    if ops == [] {
      assert IsHistory(INITIAL, None, []) by { NothingSeen(); }
    } else {
      var init, op := ops[..|ops| - 1], ops[|ops| - 1];
      RunIsHistory(init);
      RunSound(init);
      if Begins(Run(init), op) {
        BeginsAtStart(Run(init), op);
        BeginIsHistory(Run(init), op);
      } else {
        StepIsHistory(Run(init), op, LastStart(init), SeenSince(init));
      }
    }
  }

  lemma NothingSeen()
    ensures IsHistory(INITIAL, None, [])
  {}

  lemma BeginsAtStart(m: Machine, op: Op)
    requires Begins(m, op)
    ensures op.StartEnds? && op.id in m.tasks && m.tasks[op.id].StartTask?
  {}

  /** In every interleaving the metadata a finish works with is what its recording began with, brought forward
      by everything the steps since then let it see; and its recording is the one started last. */
  lemma MetadataIsHistory(ops: seq<Op>, id: nat)
    requires id in Run(ops).tasks && Run(ops).tasks[id].FinishTask?
    ensures var t, start := Run(ops).tasks[id], LastStart(ops);
            && start.Some?
            && t.meta == Some(After(MetaOf(start.value.request, start.value.at), SeenSince(ops)))
            && t.droppedAtStart == start.value.request.dropped
            && t.recorder.path == Some(start.value.request.path)
  {
    hide Step, Run, After, LastStart, SeenSince;
    RunIsHistory(ops);
    FinishHasFileAndMetadata(ops, id);
    LastIsStarted(ops);
  }

  lemma {:induction false} LastIsStarted(ops: seq<Op>)
    ensures LastStart(ops).Some? <==> Run(ops).started != []
    ensures LastStart(ops).Some? ==>
              LastStart(ops).value.request.path == Run(ops).started[|Run(ops).started| - 1]
  {
    hide Begins, Step;
    if ops != [] {
      var init, op := ops[..|ops| - 1], ops[|ops| - 1];
      LastIsStarted(init);
      StartedBy(Run(init), op);
    }
  }

  lemma StartedBy(m: Machine, op: Op)
    ensures if Begins(m, op)
            then op.id in m.tasks && m.tasks[op.id].StartTask? && Step(m, op).started == m.started + [m.tasks[op.id].request.path]
            else Step(m, op).started == m.started
  {
    hide BeginStart, BeginFinish, EndStart, EndFinish, Complete;
  }
}
