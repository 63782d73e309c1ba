/**
 The host runner's durable jobs: a spawner that publishes metadata by rename, a
 detached wrapper that publishes its exit code by rename, status readers that
 race with both, and restarts of the runner. The steps of all of them act on the
 job directories and the process table, and keep one invariant.
 */
module JobProtocol {
  import opened Wrappers
  import opened ExitCode

  // ── The state of the machine ───────────────────────────────────────────

  datatype MetaDoc = Torn | Whole(jobId: nat, pid: Option<nat>)

  /** How far `spawn_job` has got; `Abandoned` if it failed or the runner stopped before it returned. */
  datatype Spawner =
    | Created
    | TearingFirst
    | WroteFirst
    | PublishedFirst
    | Started
    | TearingSecond
    | WroteSecond
    | PublishedSecond
    | Returned
    | Abandoned

  /** What a wrapper published: its command's status, of whose text `sent` bytes were written. */
  datatype Exited = Exited(status: nat, sent: nat)

  /**
   The wrapper: running the command, writing its status, done, or gone with or
   without publishing. A failed write does not stop it: it renames what it has.
   */
  datatype Wrapper =
    | NotStarted
    | Running(pid: nat)
    | Writing(pid: nat, status: nat, written: nat, failed: bool)
    | Published(pid: nat, exited: Exited)
    | Gone(pid: nat, outcome: Option<Exited>)

  datatype Job = Job(
    spawner: Spawner, wrapper: Wrapper,
    metaTmp: Option<MetaDoc>, meta: Option<MetaDoc>,
    exitTmp: Option<string>, exit: Option<string>)

  /** A status request after it has read the metadata, and after it has found no exit file. */
  datatype Reader =
    | AtExit(id: nat, pid: Option<nat>, since: nat, returned: bool)
    | AtProc(id: nat, pid: Option<nat>, since: nat, returned: bool)
    | Finished

  datatype JobState = IsRunning | Succeeded | Failed | Lost | Unreadable

  /**
   What a status request reported. `since` counts the reports made before it
   began, `returned` says whether the job id had been handed out by then, `gone`
   whether a process was named and absent, `noExit` whether the exit file was
   still missing when the report was made.
   */
  datatype Report = Report(id: nat, since: nat, returned: bool, state: JobState, code: Option<int>, gone: bool, noExit: bool)

  datatype State = State(jobs: map<nat, Job>, alive: set<nat>, readers: seq<Reader>, reports: seq<Report>)

  datatype Action =
    | Create(id: nat)
    | Advance(id: nat, pid: nat)
    | Finish(id: nat, status: nat)
    | WriteMore(id: nat)
    | FailWrite(id: nat)
    | Publish(id: nat)
    | Exit(id: nat)
    | Kill(id: nat)
    | FailSpawn(id: nat)
    | StartOther(pid: nat)
    | StopOther(pid: nat)
    | Open(id: nat)
    | ReadExit(reader: nat)
    | CheckProc(reader: nat)
    | Restart

  predicate Live(w: Wrapper) {
    w.Running? || w.Writing? || w.Published?
  }

  function WrapperPid(w: Wrapper): Option<nat> {
    if w.NotStarted? then None else Some(w.pid)
  }

  // ── Steps ──────────────────────────────────────────────────────────────

  /** One file operation of `spawn_job`; starting the wrapper takes a free process id. */
  function AdvanceJob(id: nat, j: Job, pid: nat): Job {
    match j.spawner
    case Created => j.(spawner := TearingFirst, metaTmp := Some(Torn))
    case TearingFirst => j.(spawner := WroteFirst, metaTmp := Some(Whole(id, None)))
    case WroteFirst => j.(spawner := PublishedFirst, meta := j.metaTmp, metaTmp := None)
    case PublishedFirst => j.(spawner := Started, wrapper := Running(pid))
    case Started => j.(spawner := TearingSecond, metaTmp := Some(Torn))
    case TearingSecond => j.(spawner := WroteSecond, metaTmp := Some(Whole(id, WrapperPid(j.wrapper))))
    case WroteSecond => j.(spawner := PublishedSecond, meta := j.metaTmp, metaTmp := None)
    case PublishedSecond => j.(spawner := Returned)
    case _ => j
  }

  function FinishJob(j: Job, status: nat): Job {
    if j.wrapper.Running? then j.(wrapper := Writing(j.wrapper.pid, status, 0, false), exitTmp := Some("")) else j
  }

  function WriteJob(j: Job): Job {
    if j.wrapper.Writing? && !j.wrapper.failed && j.wrapper.written < |ExitText(j.wrapper.status)| then
      var n := j.wrapper.written + 1;
      j.(wrapper := j.wrapper.(written := n), exitTmp := Some(ExitText(j.wrapper.status)[..n]))
    else j
  }

  function FailJob(j: Job): Job {
    if j.wrapper.Writing? then j.(wrapper := j.wrapper.(failed := true)) else j
  }

  function PublishJob(j: Job): Job {
    if j.wrapper.Writing? && (j.wrapper.failed || j.wrapper.written == |ExitText(j.wrapper.status)|) then
      j.(wrapper := Published(j.wrapper.pid, Exited(j.wrapper.status, j.wrapper.written)), exit := j.exitTmp, exitTmp := None)
    else j
  }

  /** What the wrapper has renamed into place. */
  function Outcome(w: Wrapper): Option<Exited> {
    match w
    case Published(_, exited) => Some(exited)
    case Gone(_, outcome) => outcome
    case _ => None
  }

  /** The wrapper ends by itself once it has published, or is killed anywhere. */
  function EndJob(j: Job): Job {
    if Live(j.wrapper) then
      j.(wrapper := Gone(j.wrapper.pid, Outcome(j.wrapper)))
    else j
  }

  function AbandonJob(j: Job): Job {
    if j.spawner.Returned? then j else j.(spawner := Abandoned)
  }

  function OnJob(s: State, id: nat, j: Job): State {
    s.(jobs := s.jobs[id := j])
  }

  /** The state and code `read_job_status` derives from the exit file. */
  function ExitState(text: string): (r: (JobState, Option<int>))
    ensures r.0.Succeeded? || r.0.Failed? || r.0.Unreadable?
  {
    match ParseCode(text)
    case None => (Unreadable, None)
    case Some(code) => (if code == 0 then Succeeded else Failed, Some(code))
  }

  function Step(s: State, a: Action): State {
    match a
    case Create(id) =>
      if id in s.jobs then s else OnJob(s, id, Job(Created, NotStarted, None, None, None, None))
    case Advance(id, pid) =>
      if id !in s.jobs then s
      else if s.jobs[id].spawner.PublishedFirst? then
        if pid in s.alive then s else OnJob(s, id, AdvanceJob(id, s.jobs[id], pid)).(alive := s.alive + {pid})
      else OnJob(s, id, AdvanceJob(id, s.jobs[id], pid))
    case Finish(id, status) =>
      if id in s.jobs && status <= 255 then OnJob(s, id, FinishJob(s.jobs[id], status)) else s
    case WriteMore(id) => if id in s.jobs then OnJob(s, id, WriteJob(s.jobs[id])) else s
    case FailWrite(id) => if id in s.jobs then OnJob(s, id, FailJob(s.jobs[id])) else s
    case Publish(id) => if id in s.jobs then OnJob(s, id, PublishJob(s.jobs[id])) else s
    case Exit(id) =>
      if id in s.jobs && s.jobs[id].wrapper.Published? then
        OnJob(s, id, EndJob(s.jobs[id])).(alive := s.alive - {s.jobs[id].wrapper.pid})
      else s
    case Kill(id) =>
      if id in s.jobs && Live(s.jobs[id].wrapper) then
        OnJob(s, id, EndJob(s.jobs[id])).(alive := s.alive - {s.jobs[id].wrapper.pid})
      else s
    case FailSpawn(id) => if id in s.jobs then OnJob(s, id, AbandonJob(s.jobs[id])) else s
    case StartOther(pid) => if pid in s.alive then s else s.(alive := s.alive + {pid})
    case StopOther(pid) =>
      if exists id :: id in s.jobs && Live(s.jobs[id].wrapper) && s.jobs[id].wrapper.pid == pid then s
      else s.(alive := s.alive - {pid})
    case Open(id) =>
      if id !in s.jobs || s.jobs[id].meta.None? then s
      else
        var doc := s.jobs[id].meta.value;
        var since, returned := |s.reports|, s.jobs[id].spawner.Returned?;
        if doc.Torn? || doc.jobId != id then
          s.(reports := s.reports + [Report(id, since, returned, Unreadable, None, false, s.jobs[id].exit.None?)])
        else s.(readers := s.readers + [AtExit(id, doc.pid, since, returned)])
    case ReadExit(r) =>
      if r < |s.readers| && s.readers[r].AtExit? && s.readers[r].id in s.jobs then
        var reader := s.readers[r];
        match s.jobs[reader.id].exit
        case None => s.(readers := s.readers[r := AtProc(reader.id, reader.pid, reader.since, reader.returned)])
        case Some(text) =>
          var (state, code) := ExitState(text);
          s.(readers := s.readers[r := Finished],
             reports := s.reports + [Report(reader.id, reader.since, reader.returned, state, code, false, false)])
      else s
    case CheckProc(r) =>
      if r < |s.readers| && s.readers[r].AtProc? && s.readers[r].id in s.jobs then
        var reader := s.readers[r];
        var running := reader.pid.Some? && reader.pid.value in s.alive;
        s.(readers := s.readers[r := Finished],
           reports := s.reports + [Report(reader.id, reader.since, reader.returned,
             if running then IsRunning else Lost, None, reader.pid.Some? && !running, s.jobs[reader.id].exit.None?)])
      else s
    case Restart =>
      s.(jobs := map id | id in s.jobs :: AbandonJob(s.jobs[id]),
         readers := seq(|s.readers|, _ => Finished))
  }

  // ── The invariant ──────────────────────────────────────────────────────

  /** A finished document, naming the job and at most its own wrapper, and there before the wrapper starts. */
  predicate DocOk(id: nat, d: Option<MetaDoc>, w: Wrapper) {
    && (d.Some? ==> d.value.Whole? && d.value.jobId == id && (d.value.pid.Some? ==> d.value.pid == WrapperPid(w)))
    && (!w.NotStarted? ==> d.Some?)
  }

  predicate HasPid(d: Option<MetaDoc>) {
    d.Some? && d.value.Whole? && d.value.pid.Some?
  }

  /** Only a finished temporary file is ever renamed into place. */
  predicate SpawnerOk(id: nat, j: Job) {
    match j.spawner
    case Created => j.meta.None? && j.wrapper.NotStarted?
    case TearingFirst => j.meta.None? && j.wrapper.NotStarted?
    case WroteFirst => j.metaTmp == Some(Whole(id, None)) && j.wrapper.NotStarted?
    case PublishedFirst => j.meta == Some(Whole(id, None)) && j.wrapper.NotStarted?
    case Started => !j.wrapper.NotStarted?
    case TearingSecond => !j.wrapper.NotStarted?
    case WroteSecond => j.metaTmp == Some(Whole(id, WrapperPid(j.wrapper))) && !j.wrapper.NotStarted?
    case PublishedSecond => HasPid(j.meta)
    case Returned => HasPid(j.meta)
    case Abandoned => true
  }

  /** This much of a status's text, and no more, is in the file. */
  predicate Holds(file: Option<string>, status: nat, sent: nat) {
    status <= 255 && sent <= |ExitText(status)| && file == Some(ExitText(status)[..sent])
  }

  /** The exit file exists exactly when the wrapper has published, and holds what it had written by then. */
  predicate ExitOk(j: Job) {
    && (j.wrapper.Writing? ==> Holds(j.exitTmp, j.wrapper.status, j.wrapper.written))
    && match Outcome(j.wrapper)
       case None => j.exit.None?
       case Some(e) => Holds(j.exit, e.status, e.sent)
  }

  predicate JobOk(id: nat, j: Job) {
    DocOk(id, j.meta, j.wrapper) && SpawnerOk(id, j) && ExitOk(j)
  }

  ghost predicate JobsOk(jobs: map<nat, Job>, alive: set<nat>) {
    && (forall id :: id in jobs ==> JobOk(id, jobs[id]))
    && (forall id :: id in jobs && Live(jobs[id].wrapper) ==> jobs[id].wrapper.pid in alive)
    && (forall id, other :: id in jobs && other in jobs && id != other && Live(jobs[id].wrapper) && Live(jobs[other].wrapper) ==>
          jobs[id].wrapper.pid != jobs[other].wrapper.pid)
  }

  predicate IsFinal(r: Report) {
    r.state.Succeeded? || r.state.Failed?
  }

  /** The report tells what is in the exit file, or that it cannot be read. */
  predicate ReadsExit(r: Report) {
    IsFinal(r) || r.state.Unreadable?
  }

  /** The named wrapper can never publish an exit code any more. */
  predicate NeverPublishes(j: Job) {
    j.wrapper.Gone? && j.wrapper.outcome.None?
  }

  /** The exit file is there, and this is what is read of it. */
  predicate ShowsExit(j: Job, state: JobState, code: Option<int>) {
    j.exit.Some? && ExitState(j.exit.value) == (state, code)
  }

  /** A report agrees with the job as it is now, and always will be. */
  predicate ReportOk(jobs: map<nat, Job>, r: Report) {
    && r.id in jobs
    && (ReadsExit(r) ==> ShowsExit(jobs[r.id], r.state, r.code))
    && (r.returned && r.state.Lost? ==> r.gone)
    && (r.state.Lost? && r.gone && r.noExit ==> NeverPublishes(jobs[r.id]))
    && (r.state.Lost? && r.gone && !r.noExit ==> jobs[r.id].exit.Some?)
  }

  /** A pending reader knows at most the wrapper's own process, and knows it if the id was handed out. */
  predicate ReaderOk(jobs: map<nat, Job>, r: Reader) {
    !r.Finished? ==>
      && r.id in jobs
      && (r.pid.Some? ==> r.pid == WrapperPid(jobs[r.id].wrapper))
      && (r.returned ==> r.pid.Some?)
  }

  /** Before the reader began nobody had read an exit file of the job. */
  ghost predicate NoFinalBefore(reports: seq<Report>, id: nat, since: nat) {
    forall i :: 0 <= i < since && i < |reports| && reports[i].id == id ==> !ReadsExit(reports[i])
  }

  ghost predicate ReadersOk(s: State) {
    forall k :: 0 <= k < |s.readers| ==>
      && ReaderOk(s.jobs, s.readers[k])
      && (s.readers[k].AtProc? ==> s.readers[k].since <= |s.reports| && NoFinalBefore(s.reports, s.readers[k].id, s.readers[k].since))
      && (s.readers[k].AtExit? ==> s.readers[k].since <= |s.reports|)
  }

  /** After a report on the exit file, every request begun later reports the same. */
  ghost predicate FinalKept(reports: seq<Report>) {
    forall i, k :: 0 <= i < |reports| && 0 <= k < |reports| && i < reports[k].since && reports[i].id == reports[k].id && ReadsExit(reports[i]) ==>
      reports[k].state == reports[i].state && reports[k].code == reports[i].code
  }

  ghost predicate ReportsOk(s: State) {
    forall i :: 0 <= i < |s.reports| ==> s.reports[i].since <= i && ReportOk(s.jobs, s.reports[i])
  }

  ghost predicate Inv(s: State) {
    JobsOk(s.jobs, s.alive) && ReadersOk(s) && ReportsOk(s) && FinalKept(s.reports)
  }

  // ── Every step keeps the invariant ─────────────────────────────────────

  /**
   A final report on the job is still possible: something readable is
   published, or its command is yet to be started, to end or to be recorded.
   */
  predicate CanFinish(j: Job) {
    match j.wrapper
    case NotStarted => !j.spawner.Abandoned?
    case Running(_) => true
    case Writing(_, _, written, failed) => !failed || written > 0
    case _ => Outcome(j.wrapper).Some? && Outcome(j.wrapper).value.sent > 0
  }

  /** What can happen to a job: its process, what it published and a loss are never taken back. */
  predicate Evolves(j: Job, next: Job) {
    && (Outcome(j.wrapper).Some? ==> Outcome(next.wrapper) == Outcome(j.wrapper))
    && (!CanFinish(j) ==> !CanFinish(next))
    && (!j.wrapper.NotStarted? ==> WrapperPid(next.wrapper) == WrapperPid(j.wrapper))
    && (j.exit.Some? ==> next.exit == j.exit)
    && (NeverPublishes(j) ==> NeverPublishes(next))
  }

  lemma AdvanceKeeps(id: nat, j: Job, pid: nat)
    requires JobOk(id, j)
    ensures JobOk(id, AdvanceJob(id, j, pid)) && Evolves(j, AdvanceJob(id, j, pid))
    ensures j.spawner.PublishedFirst? ==> AdvanceJob(id, j, pid).wrapper == Running(pid)
    ensures !j.spawner.PublishedFirst? ==> AdvanceJob(id, j, pid).wrapper == j.wrapper
  {
    hide ExitText;
  }

  lemma WrapperKeeps(id: nat, j: Job, status: nat)
    requires JobOk(id, j) && status <= 255
    ensures JobOk(id, FinishJob(j, status)) && Evolves(j, FinishJob(j, status))
    ensures JobOk(id, WriteJob(j)) && Evolves(j, WriteJob(j))
    ensures JobOk(id, FailJob(j)) && Evolves(j, FailJob(j))
    ensures JobOk(id, PublishJob(j)) && Evolves(j, PublishJob(j))
    ensures JobOk(id, EndJob(j)) && Evolves(j, EndJob(j)) && !Live(EndJob(j).wrapper)
    ensures JobOk(id, AbandonJob(j)) && Evolves(j, AbandonJob(j))
  {
    hide ExitText;
    if FinishJob(j, status).wrapper.Writing? && j.wrapper.Running? {
      assert ExitText(status)[..0] == "";
    }
  }

  /** Readers and reports stay right while one job moves on. */
  lemma JobMoves(s: State, id: nat, next: Job, alive: set<nat>)
    requires Inv(s) && JobOk(id, next)
    requires id in s.jobs ==> Evolves(s.jobs[id], next)
    requires Live(next.wrapper) ==> next.wrapper.pid in alive
    requires forall other :: other in s.jobs && other != id && Live(s.jobs[other].wrapper) ==>
      s.jobs[other].wrapper.pid in alive && (Live(next.wrapper) ==> s.jobs[other].wrapper.pid != next.wrapper.pid)
    ensures Inv(OnJob(s, id, next).(alive := alive))
  {
    hide ExitText, JobOk;
  }

  lemma JobStepKeeps(s: State, a: Action)
    requires Inv(s)
    requires a.Create? || a.Advance? || a.Finish? || a.WriteMore? || a.FailWrite? || a.Publish? || a.Exit? || a.Kill? || a.FailSpawn?
    ensures Inv(Step(s, a))
  {
    hide ExitText, JobOk, Evolves;
    if a.id !in s.jobs {
      if a.Create? {
        var j := Job(Created, NotStarted, None, None, None, None);
        FreshJobOk(a.id, j);
        JobMoves(s, a.id, j, s.alive);
      }
    } else {
      var j := s.jobs[a.id];
      WrapperKeeps(a.id, j, if a.Finish? && a.status <= 255 then a.status else 0);
      LiveEnds(j, if a.Finish? then a.status else 0);
      if a.Advance? {
        AdvanceKeeps(a.id, j, a.pid);
        if j.spawner.PublishedFirst? && a.pid !in s.alive {
          JobMoves(s, a.id, AdvanceJob(a.id, j, a.pid), s.alive + {a.pid});
        } else if !j.spawner.PublishedFirst? {
          JobMoves(s, a.id, AdvanceJob(a.id, j, a.pid), s.alive);
        }
      } else if a.Finish? && a.status <= 255 {
        JobMoves(s, a.id, FinishJob(j, a.status), s.alive);
      } else if a.WriteMore? {
        JobMoves(s, a.id, WriteJob(j), s.alive);
      } else if a.FailWrite? {
        JobMoves(s, a.id, FailJob(j), s.alive);
      } else if a.Publish? {
        JobMoves(s, a.id, PublishJob(j), s.alive);
      } else if a.FailSpawn? {
        JobMoves(s, a.id, AbandonJob(j), s.alive);
      } else if (a.Exit? && j.wrapper.Published?) || (a.Kill? && Live(j.wrapper)) {
        JobMoves(s, a.id, EndJob(j), s.alive - {j.wrapper.pid});
      }
    }
  }

  lemma FreshJobOk(id: nat, j: Job)
    requires j == Job(Created, NotStarted, None, None, None, None)
    ensures JobOk(id, j)
  {
  }

  /** Only starting, ending or killing the wrapper changes its process. */
  lemma LiveEnds(j: Job, status: nat)
    ensures Live(FinishJob(j, status).wrapper) == Live(j.wrapper) && WrapperPid(FinishJob(j, status).wrapper) == WrapperPid(j.wrapper)
    ensures Live(WriteJob(j).wrapper) == Live(j.wrapper) && WrapperPid(WriteJob(j).wrapper) == WrapperPid(j.wrapper)
    ensures Live(FailJob(j).wrapper) == Live(j.wrapper) && WrapperPid(FailJob(j).wrapper) == WrapperPid(j.wrapper)
    ensures Live(PublishJob(j).wrapper) == Live(j.wrapper) && WrapperPid(PublishJob(j).wrapper) == WrapperPid(j.wrapper)
    ensures AbandonJob(j).wrapper == j.wrapper
  {
    hide ExitText;
  }

  lemma ProcessesKeep(s: State, a: Action)
    requires Inv(s) && (a.StartOther? || a.StopOther?)
    ensures Inv(Step(s, a))
  {
    hide JobOk, ReportOk, ReaderOk, FinalKept, NoFinalBefore;
  }

  lemma RestartKeeps(s: State)
    requires Inv(s)
    ensures Inv(Step(s, Restart))
  {
    hide ExitText, FinalKept, DocOk, ExitOk, SpawnerOk;
    var next := Step(s, Restart);
    forall id | id in s.jobs
      ensures JobOk(id, next.jobs[id])
    {
      WrapperKeeps(id, s.jobs[id], 0);
    }
  }

  lemma OpenKeeps(s: State, id: nat)
    requires Inv(s)
    ensures Inv(Step(s, Open(id)))
  {
    hide ExitText, ExitOk, FinalKept;
    if id in s.jobs && s.jobs[id].meta.Some? {
      assert JobOk(id, s.jobs[id]);
    }
  }

  /** A report filed now about `id` matches any report on its exit file. */
  lemma ReportAgrees(s: State, r: Report)
    requires Inv(s) && r.since <= |s.reports|
    requires forall i :: 0 <= i < r.since && s.reports[i].id == r.id && ReadsExit(s.reports[i]) ==>
      r.state == s.reports[i].state && r.code == s.reports[i].code
    ensures FinalKept(s.reports + [r])
  {
    hide ReportOk, JobOk, ReaderOk;
    var reports := s.reports + [r];
    forall i, k | 0 <= i < |reports| && 0 <= k < |reports| && i < reports[k].since && reports[i].id == reports[k].id && ReadsExit(reports[i])
      ensures reports[k].state == reports[i].state && reports[k].code == reports[i].code
    {
      if k < |s.reports| {
        assert s.reports[k].since <= k;
        assert reports[i] == s.reports[i] && reports[k] == s.reports[k];
      } else {
        assert reports[i] == s.reports[i];
      }
    }
  }

  /** Filing a sound report and retiring its reader keeps the invariant. */
  lemma FilingKeeps(s: State, k: nat, r: Report)
    requires Inv(s) && k < |s.readers|
    requires r.since <= |s.reports| && ReportOk(s.jobs, r) && FinalKept(s.reports + [r])
    ensures Inv(s.(readers := s.readers[k := Finished], reports := s.reports + [r]))
  {
    hide ReportOk, JobOk, ReaderOk, FinalKept;
    var next := s.(readers := s.readers[k := Finished], reports := s.reports + [r]);
    forall j | 0 <= j < |next.readers|
      ensures ReaderOk(next.jobs, next.readers[j])
      ensures next.readers[j].AtProc? ==> next.readers[j].since <= |next.reports| && NoFinalBefore(next.reports, next.readers[j].id, next.readers[j].since)
      ensures next.readers[j].AtExit? ==> next.readers[j].since <= |next.reports|
    {
      if j == k {
        FinishedOk(s.jobs);
      } else {
        assert next.readers[j] == s.readers[j];
      }
    }
  }

  lemma FinishedOk(jobs: map<nat, Job>)
    ensures ReaderOk(jobs, Finished)
  {
  }

  /** What a reader finds in the exit file is what every report on the file said. */
  lemma ExitAgrees(s: State, id: nat, state: JobState, code: Option<int>, i: nat)
    requires Inv(s) && id in s.jobs && ShowsExit(s.jobs[id], state, code)
    requires i < |s.reports| && s.reports[i].id == id && ReadsExit(s.reports[i])
    ensures state == s.reports[i].state && code == s.reports[i].code
  {
    hide ExitText, JobOk, ReaderOk, FinalKept, ExitState;
    assert ReportOk(s.jobs, s.reports[i]);
  }

  lemma ReadExitKeeps(s: State, k: nat)
    requires Inv(s)
    ensures Inv(Step(s, ReadExit(k)))
  {
    hide ExitText, JobOk, FinalKept, ExitState;
    if k < |s.readers| && s.readers[k].AtExit? && s.readers[k].id in s.jobs {
      var reader := s.readers[k];
      var j := s.jobs[reader.id];
      if j.exit.None? {
        NoFinalYet(s, reader.id);
      } else {
        var (state, code) := ExitState(j.exit.value);
        var r := Report(reader.id, reader.since, reader.returned, state, code, false, false);
        assert ShowsExit(j, state, code);
        forall i | 0 <= i < r.since && s.reports[i].id == r.id && ReadsExit(s.reports[i])
          ensures r.state == s.reports[i].state && r.code == s.reports[i].code
        {
          ExitAgrees(s, reader.id, state, code, i);
        }
        ReportAgrees(s, r);
        FilingKeeps(s, k, r);
      }
    }
  }

  lemma ExitOkOf(s: State, id: nat)
    requires Inv(s) && id in s.jobs
    ensures ExitOk(s.jobs[id])
  {
    assert JobOk(id, s.jobs[id]);
  }

  /** While the exit file is missing nobody has reported on it. */
  lemma NoFinalYet(s: State, id: nat)
    requires Inv(s) && id in s.jobs && s.jobs[id].exit.None?
    ensures NoFinalBefore(s.reports, id, |s.reports|)
  {
    hide ExitText, JobOk, FinalKept;
    forall i | 0 <= i < |s.reports| && s.reports[i].id == id
      ensures !ReadsExit(s.reports[i])
    {
      assert ReportOk(s.jobs, s.reports[i]);
    }
  }

  lemma CheckProcKeeps(s: State, k: nat)
    requires Inv(s)
    ensures Inv(Step(s, CheckProc(k)))
  {
    hide ExitText, FinalKept;
    if k < |s.readers| && s.readers[k].AtProc? && s.readers[k].id in s.jobs {
      var reader := s.readers[k];
      var running := reader.pid.Some? && reader.pid.value in s.alive;
      var r := Report(reader.id, reader.since, reader.returned, if running then IsRunning else Lost, None,
                      reader.pid.Some? && !running, s.jobs[reader.id].exit.None?);
      assert ReaderOk(s.jobs, reader);
      assert JobOk(reader.id, s.jobs[reader.id]);
      assert NoFinalBefore(s.reports, reader.id, reader.since);
      ReportAgrees(s, r);
      FilingKeeps(s, k, r);
    }
  }

  lemma StepKeeps(s: State, a: Action)
    requires Inv(s)
    ensures Inv(Step(s, a))
  {
    hide Inv, Step;
    match a
    case StartOther(_) => ProcessesKeep(s, a);
    case StopOther(_) => ProcessesKeep(s, a);
    case Open(id) => OpenKeeps(s, id);
    case ReadExit(k) => ReadExitKeeps(s, k);
    case CheckProc(k) => CheckProcKeeps(s, k);
    case Restart => RestartKeeps(s);
    case Create(_) => JobStepKeeps(s, a);
    case Advance(_, _) => JobStepKeeps(s, a);
    case Finish(_, _) => JobStepKeeps(s, a);
    case WriteMore(_) => JobStepKeeps(s, a);
    case FailWrite(_) => JobStepKeeps(s, a);
    case Publish(_) => JobStepKeeps(s, a);
    case Exit(_) => JobStepKeeps(s, a);
    case Kill(_) => JobStepKeeps(s, a);
    case FailSpawn(_) => JobStepKeeps(s, a);
  }
}
