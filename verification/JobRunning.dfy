/**
 When a status request of the durable-job protocol reports a job running: a
 process id is looked up by its number alone, and numbers are reused.
 */
module JobRunning {
  import opened Wrappers
  import opened ExitCode
  import opened JobProtocol
  import opened JobRuns

  /** The wrapper has ended, and its process id is now another process's. */
  predicate Reused(s: State, w: Wrapper) {
    w.Gone? && w.pid in s.alive
  }

  /** The look-up of the process would now report the job running. */
  predicate WouldReportRunning(s: State, k: nat, id: nat) {
    && k < |s.readers| && s.readers[k].AtProc? && s.readers[k].id == id && id in s.jobs
    && var next := Step(s, CheckProc(k));
       |next.reports| == |s.reports| + 1 && next.reports[|s.reports|].state.IsRunning?
  }

  /**
   A request that found no exit file reports the job running exactly when the
   metadata it read named a process, and the job's wrapper is still there or its
   process id has been reused.
   */
  lemma RunningIff(s: State, k: nat)
    requires Reachable(s) && k < |s.readers| && s.readers[k].AtProc?
    ensures var r := s.readers[k]; r.id in s.jobs
    ensures var r := s.readers[k]; var w := s.jobs[r.id].wrapper;
      WouldReportRunning(s, k, r.id) <==> r.pid.Some? && (Live(w) || Reused(s, w))
  {
    hide Reachable, ExitText, JobOk, FinalKept, ReportsOk;
    ReachableInv(s);
    assert ReaderOk(s.jobs, s.readers[k]);
  }

  // ── Which jobs can still be reported running ───────────────────────────

  /** Some request begun later reports the job running. */
  ghost predicate CanReportRunning(s: State, id: nat) {
    exists t, k: nat :: Leads(s, t) && |s.readers| <= k && WouldReportRunning(t, k, id)
  }

  /** Nothing has been published, and the metadata names a process or can still come to. */
  predicate CanRun(j: Job) {
    Outcome(j.wrapper).None? && (HasPid(j.meta) || !j.spawner.Abandoned?)
  }

  lemma AbandonedKeeps(id: nat, j: Job, pid: nat, status: nat)
    requires JobOk(id, j) && status <= 255 && !CanRun(j)
    ensures !CanRun(AdvanceJob(id, j, pid)) && !CanRun(FinishJob(j, status)) && !CanRun(WriteJob(j)) && !CanRun(FailJob(j))
    ensures !CanRun(PublishJob(j)) && !CanRun(EndJob(j)) && !CanRun(AbandonJob(j))
  {
    hide ExitText, JobOk, ExitOk, DocOk;
    AdvanceKeeps(id, j, pid);
    WrapperKeeps(id, j, status);
  }

  lemma CannotRunStays(s: State, id: nat, a: Action)
    requires Inv(s) && id in s.jobs && !CanRun(s.jobs[id])
    ensures id in Step(s, a).jobs && !CanRun(Step(s, a).jobs[id])
  {
    hide ExitText, JobOk, ReadersOk, ReportsOk, FinalKept, CanRun, FinishJob, WriteJob, FailJob, PublishJob, EndJob, AbandonJob,
      AdvanceJob, ExitState;
    AbandonedKeeps(id, s.jobs[id], if a.Advance? then a.pid else 0, if a.Finish? && a.status <= 255 then a.status else 0);
  }

  /** The request will not look up a process of the job. */
  predicate Silent(s: State, id: nat, r: Reader) {
    && (r.AtExit? && r.id == id && id in s.jobs ==> s.jobs[id].exit.Some? || r.pid.None?)
    && (r.AtProc? && r.id == id ==> r.pid.None?)
  }

  ghost predicate AllSilent(s: State, id: nat, n: nat) {
    forall k :: n <= k < |s.readers| ==> Silent(s, id, s.readers[k])
  }

  /** What a step makes of the requests: it moves one on, adds one at its start, or ends them all. */
  lemma ReaderMoves(s: State, a: Action, k: nat)
    requires k < |Step(s, a).readers|
    ensures var r := Step(s, a).readers[k];
      || r.Finished?
      || (k < |s.readers| && r == s.readers[k])
      || (a.Open? && k == |s.readers| && r.AtExit? && r.id == a.id && a.id in s.jobs
          && s.jobs[a.id].meta.Some? && s.jobs[a.id].meta.value.Whole? && r.pid == s.jobs[a.id].meta.value.pid)
      || (k < |s.readers| && r.AtProc? && s.readers[k].AtExit? && s.readers[k].id == r.id && s.readers[k].pid == r.pid
          && r.id in s.jobs && s.jobs[r.id].exit.None?)
  {
    hide ExitText, ExitState, AdvanceJob, FinishJob, WriteJob, FailJob, PublishJob, EndJob, AbandonJob;
  }

  lemma SilentStays(s: State, id: nat, n: nat, a: Action)
    requires Inv(s) && id in s.jobs && !CanRun(s.jobs[id]) && n <= |s.readers| && AllSilent(s, id, n)
    ensures n <= |Step(s, a).readers| && AllSilent(Step(s, a), id, n)
  {
    hide ExitText, Step, Inv, CanRun;
    StepPersists(s, a);
    ExitOkOf(s, id);
    var t := Step(s, a);
    forall k | n <= k < |t.readers|
      ensures Silent(t, id, t.readers[k])
    {
      ReaderMoves(s, a, k);
      if k < |s.readers| {
        assert Silent(s, id, s.readers[k]);
      } else if t.readers[k].AtExit? && t.readers[k].id == id {
        NewSilent(s, t, id);
      }
    }
  }

  lemma NewSilent(s: State, t: State, id: nat)
    requires Inv(s) && id in s.jobs && !CanRun(s.jobs[id]) && Persists(s, t)
    requires s.jobs[id].meta.Some? && s.jobs[id].meta.value.Whole?
    ensures t.jobs[id].exit.Some? || s.jobs[id].meta.value.pid.None?
  {
    hide ExitText, ReadersOk, ReportsOk, FinalKept;
    ExitOkOf(s, id);
  }

  lemma {:induction false} NeverRunning(s: State, actions: seq<Action>, id: nat)
    requires Inv(s) && id in s.jobs && !CanRun(s.jobs[id])
    ensures var t := RunFrom(s, actions);
      && Inv(t) && id in t.jobs && !CanRun(t.jobs[id]) && |s.readers| <= |t.readers| && AllSilent(t, id, |s.readers|)
    decreases |actions|
  {
    hide Inv, Step, CanRun, Silent;
    if actions != [] {
      var t, a := RunFrom(s, actions[..|actions| - 1]), actions[|actions| - 1];
      NeverRunning(s, actions[..|actions| - 1], id);
      CannotRunStays(t, id, a);
      SilentStays(t, id, |s.readers|, a);
      StepKeeps(t, a);
    }
  }

  lemma NotNamed(s: State, t: State, k: nat, id: nat)
    requires Inv(s) && id in s.jobs && !CanRun(s.jobs[id]) && Leads(s, t) && |s.readers| <= k
    ensures !WouldReportRunning(t, k, id)
  {
    hide Inv, CanRun;
    var actions :| RunFrom(s, actions) == t;
    NeverRunning(s, actions, id);
    assert k < |t.readers| ==> Silent(t, id, t.readers[k]);
  }

  /** Steps of the spawner until the metadata names the wrapper. */
  function StepsToName(p: Spawner): nat {
    match p
    case Created => 7
    case TearingFirst => 6
    case WroteFirst => 5
    case PublishedFirst => 4
    case Started => 3
    case TearingSecond => 2
    case WroteSecond => 1
    case _ => 0
  }

  lemma NameNext(id: nat, j: Job, pid: nat)
    requires JobOk(id, j) && CanRun(j) && !HasPid(j.meta)
    ensures var next := AdvanceJob(id, j, pid);
      StepsToName(j.spawner) > 0 && CanRun(next) && (HasPid(next.meta) || StepsToName(next.spawner) < StepsToName(j.spawner))
  {
    hide ExitText, ExitOk;
  }

  /** The spawner can go on until the metadata names its wrapper; then whatever has that id makes the job look running. */
  lemma {:induction false} RunningReported(s: State, t: State, id: nat)
    requires Inv(s) && Quietly(s, t, id) && CanRun(t.jobs[id])
    ensures CanReportRunning(s, id)
    decreases !HasPid(t.jobs[id].meta), StepsToName(t.jobs[id].spawner)
  {
    hide Inv, Leads, JobOk;
    JobOkOf(t, id);
    if HasPid(t.jobs[id].meta) {
      NamedReported(s, t, id);
    } else {
      var pid := FreePid(t.alive);
      NameNext(id, t.jobs[id], pid);
      QuietStep(s, t, id, Advance(id, pid));
      RunningReported(s, Step(t, Advance(id, pid)), id);
    }
  }

  lemma JobOkOf(s: State, id: nat)
    requires Inv(s) && id in s.jobs
    ensures JobOk(id, s.jobs[id])
  {
  }

  lemma NamedReported(s: State, t: State, id: nat)
    requires Inv(s) && Quietly(s, t, id) && HasPid(t.jobs[id].meta) && Outcome(t.jobs[id].wrapper).None?
    ensures CanReportRunning(s, id)
  {
    hide Inv, Leads, ExitText;
    var pid := t.jobs[id].meta.value.pid.value;
    JobOkOf(t, id);
    QuietStep(s, t, id, StartOther(pid));
    var u := Step(t, StartOther(pid));
    QuietStep(s, u, id, Open(id));
    var v, k := Step(u, Open(id)), |u.readers|;
    QuietStep(s, v, id, ReadExit(k));
    var w := Step(v, ReadExit(k));
    LeadsReaders(s, t);
    assert WouldReportRunning(w, k, id);
  }

  lemma LeadsReaders(s: State, t: State)
    requires Leads(s, t) && Inv(s)
    ensures |s.readers| <= |t.readers|
  {
    hide Inv, Leads;
    LeadsKeeps(s, t);
  }

  /**
   A request begun later can report the job running exactly when nothing is
   published and the metadata names a process, or its spawner can still name
   one: also for a job whose wrapper was killed, for ever.
   */
  lemma CanReportRunningIff(s: State, id: nat)
    requires Reachable(s) && id in s.jobs
    ensures CanReportRunning(s, id) <==> CanRun(s.jobs[id])
  {
    hide Reachable, Leads, Inv, CanRun, WouldReportRunning;
    ReachableInv(s);
    if CanRun(s.jobs[id]) {
      LeadsSelf(s);
      RunningReported(s, s, id);
    } else {
      forall t, k: nat | Leads(s, t) && |s.readers| <= k
        ensures !WouldReportRunning(t, k, id)
      {
        NotNamed(s, t, k, id);
      }
    }
  }

  const RUNNING: Report := Report(0, 0, true, IsRunning, None, false, true)

  /** Some run reports a returned job running whose wrapper was killed before it published. */
  lemma RunningThoughGone()
    ensures exists s :: Reachable(s) && 0 in s.jobs && NeverPublishes(s.jobs[0]) && s.reports == [RUNNING]
  {
    hide Reachable;
    LaunchEnd();
    var s0 := Launched(Job(Returned, Running(7), None, Some(DOC), None, None));
    Reach(s0, Kill(0));
    var s1 := Launched(Job(Returned, Gone(7, None), None, Some(DOC), None, None));
    assert s1 == Step(s0, Kill(0));
    Reach(s1, StartOther(7));
    var s2 := s1.(alive := {7});
    assert s2 == Step(s1, StartOther(7));
    Reach(s2, Open(0));
    var s3 := s2.(readers := [AtExit(0, Some(7), 0, true)]);
    assert s3 == Step(s2, Open(0));
    Reach(s3, ReadExit(0));
    var s4 := s2.(readers := [AtProc(0, Some(7), 0, true)]);
    assert s4 == Step(s3, ReadExit(0));
    Reach(s4, CheckProc(0));
    assert Step(s4, CheckProc(0)).reports == [RUNNING];
  }
}
