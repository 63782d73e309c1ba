/**
 What every interleaving of the durable-job protocol promises its status
 requests, and one race in which a job is lost and then found.
 */
module JobRuns {
  import opened Wrappers
  import opened ExitCode
  import opened JobProtocol

  const INITIAL: State := State(map[], {}, [], [])

  function RunFrom(s: State, actions: seq<Action>): State {
    if actions == [] then s else Step(RunFrom(s, actions[..|actions| - 1]), actions[|actions| - 1])
  }

  /** Some sequence of steps leads from the one state to the other. */
  ghost predicate Leads(s: State, t: State) {
    exists actions :: RunFrom(s, actions) == t
  }

  ghost predicate Reachable(s: State) {
    Leads(INITIAL, s)
  }

  lemma LeadsSelf(s: State)
    ensures Leads(s, s)
  {
    assert RunFrom(s, []) == s;
  }

  lemma LeadsStep(s: State, t: State, a: Action)
    requires Leads(s, t)
    ensures Leads(s, Step(t, a))
  {
    hide Step;
    var actions :| RunFrom(s, actions) == t;
    assert (actions + [a])[..|actions|] == actions;
    assert RunFrom(s, actions + [a]) == Step(t, a);
  }

  // ── What no step takes back ────────────────────────────────────────────

  predicate Persists(s: State, t: State) {
    && s.reports <= t.reports
    && |s.readers| <= |t.readers|
    && (forall id :: id in s.jobs ==> id in t.jobs && Evolves(s.jobs[id], t.jobs[id]))
  }

  lemma EvolvesSelf()
    ensures forall j: Job :: Evolves(j, j)
  {
  }

  lemma RestartPersists(s: State)
    requires Inv(s)
    ensures Persists(s, Step(s, Restart))
  {
    hide ExitText, JobOk, ReadersOk, ReportsOk, FinalKept, Evolves;
    forall id | id in s.jobs
      ensures Evolves(s.jobs[id], AbandonJob(s.jobs[id]))
    {
      WrapperKeeps(id, s.jobs[id], 0);
    }
  }

  lemma StepPersists(s: State, a: Action)
    requires Inv(s)
    ensures Persists(s, Step(s, a))
  {
    hide ExitText, JobOk, ReadersOk, ReportsOk, FinalKept, ExitState, Evolves, FinishJob, WriteJob, FailJob, PublishJob, EndJob,
      AbandonJob, AdvanceJob, Live;
    EvolvesSelf();
    if a.Restart? {
      RestartPersists(s);
    } else if a.Create? || a.Advance? || a.Finish? || a.WriteMore? || a.FailWrite? || a.Publish? || a.Exit? || a.Kill? || a.FailSpawn? {
      if a.id in s.jobs {
        AdvanceKeeps(a.id, s.jobs[a.id], if a.Advance? then a.pid else 0);
        WrapperKeeps(a.id, s.jobs[a.id], if a.Finish? && a.status <= 255 then a.status else 0);
      }
    }
  }

  lemma PersistsTrans(a: State, b: State, c: State)
    ensures Persists(a, a)
    ensures Persists(a, b) && Persists(b, c) ==> Persists(a, c)
  {
  }

  lemma {:induction false} RunKeeps(s: State, actions: seq<Action>)
    requires Inv(s)
    ensures Inv(RunFrom(s, actions)) && Persists(s, RunFrom(s, actions))
    decreases |actions|
  {
    hide Step, Persists, Inv;
    if actions == [] {
      PersistsTrans(s, s, s);
    } else {
      var t, a := RunFrom(s, actions[..|actions| - 1]), actions[|actions| - 1];
      RunKeeps(s, actions[..|actions| - 1]);
      StepKeeps(t, a);
      StepPersists(t, a);
      PersistsTrans(s, t, Step(t, a));
    }
  }

  lemma LeadsKeeps(s: State, t: State)
    requires Inv(s) && Leads(s, t)
    ensures Inv(t) && Persists(s, t)
  {
    hide Inv, Persists;
    var actions :| RunFrom(s, actions) == t;
    RunKeeps(s, actions);
  }

  lemma InitialInv()
    ensures Inv(INITIAL)
  {
  }

  /** The invariant holds after every run. */
  lemma ReachableInv(s: State)
    requires Reachable(s)
    ensures Inv(s)
  {
    hide Inv, Persists;
    InitialInv();
    LeadsKeeps(INITIAL, s);
  }

  // ── What every run promises ────────────────────────────────────────────

  /** A request that read the exit file, whole or cut short: every request begun later reports the same. */
  lemma FinalStable(s: State, i: nat, k: nat)
    requires Reachable(s) && i < |s.reports| && k < |s.reports|
    requires i < s.reports[k].since && s.reports[i].id == s.reports[k].id && ReadsExit(s.reports[i])
    ensures s.reports[k].state == s.reports[i].state && s.reports[k].code == s.reports[i].code
  {
    hide Reachable;
    ReachableInv(s);
  }

  /** What is read of an exit file of which the wrapper wrote this much. */
  function Reading(e: Exited): (JobState, Option<int>)
    requires e.sent <= |ExitText(e.status)|
  {
    ExitState(ExitText(e.status)[..e.sent])
  }

  /**
   Nothing at all is unreadable; all the digits tell the code; and whatever can
   be read tells a success exactly when the command succeeded.
   */
  lemma ReadingIs(e: Exited)
    requires e.status <= 255 && e.sent <= |ExitText(e.status)|
    ensures Reading(e).0.Unreadable? <==> e.sent == 0
    ensures Reading(e).1 == Some(e.status) <==> Complete(e.status, e.sent)
    ensures e.sent > 0 ==> (Reading(e).0.Succeeded? <==> e.status == 0) && (Reading(e).0.Failed? <==> e.status != 0)
  {
    hide ExitText, ParseCode, Complete;
    CodeReadIs(e.status, e.sent);
  }

  /**
   A final report tells a success exactly when the command's status was 0, even
   if the write of the exit file failed; its code is the status exactly when
   all its digits were written.
   */
  lemma FinalIsPublished(s: State, i: nat)
    requires Reachable(s) && i < |s.reports| && IsFinal(s.reports[i])
    ensures var r := s.reports[i];
      && r.id in s.jobs && Outcome(s.jobs[r.id].wrapper).Some?
      && var e := Outcome(s.jobs[r.id].wrapper).value;
         (r.state.Succeeded? <==> e.status == 0) && (r.code == Some(e.status) <==> Complete(e.status, e.sent))
  {
    hide Reachable, ExitText, FinalKept, ExitState;
    ReachableInv(s);
    var r := s.reports[i];
    assert ReportOk(s.jobs, r);
    ExitOkOf(s, r.id);
    ReadingIs(Outcome(s.jobs[r.id].wrapper).value);
  }

  /** A request that reaches the exit file after the wrapper published reports what can be read of it. */
  lemma PublishedIsReported(s: State, k: nat)
    requires Inv(s) && k < |s.readers| && s.readers[k].AtExit? && s.readers[k].id in s.jobs
    requires Outcome(s.jobs[s.readers[k].id].wrapper).Some?
    ensures var e, reader := Outcome(s.jobs[s.readers[k].id].wrapper).value, s.readers[k];
      && e.sent <= |ExitText(e.status)|
      && Step(s, ReadExit(k)).reports == s.reports +
           [Report(reader.id, reader.since, reader.returned, Reading(e).0, Reading(e).1, false, false)]
  {
    hide ExitText, FinalKept, ExitState;
    ExitOkOf(s, s.readers[k].id);
  }

  /**
   No request ever meets half a document or another job's metadata, and none
   meets half an exit code unless the wrapper's own write was cut short: the
   code is read exactly when its digits are complete, and cannot be read
   exactly when nothing was written.
   */
  lemma NothingPartial(s: State, id: nat)
    requires Reachable(s) && id in s.jobs
    ensures var meta := s.jobs[id].meta; meta.Some? ==> meta.value.Whole? && meta.value.jobId == id
    ensures s.jobs[id].exit.Some? <==> Outcome(s.jobs[id].wrapper).Some?
    ensures s.jobs[id].exit.Some? ==>
      var e, text := Outcome(s.jobs[id].wrapper).value, s.jobs[id].exit.value;
      && (ParseCode(text) == Some(e.status) <==> Complete(e.status, e.sent))
      && (ParseCode(text) == None <==> e.sent == 0)
  {
    hide Reachable, ExitText, FinalKept, ParseCode, Complete;
    ReachableInv(s);
    assert JobOk(id, s.jobs[id]);
    ExitOkOf(s, id);
    if s.jobs[id].exit.Some? {
      var e := Outcome(s.jobs[id].wrapper).value;
      CodeReadIs(e.status, e.sent);
    }
  }

  /** So a request fails on a job's files only if its wrapper published an empty exit file. */
  lemma UnreadableIsEmpty(s: State, i: nat)
    requires Reachable(s) && i < |s.reports|
    ensures var r := s.reports[i]; r.state.Unreadable? ==>
      r.id in s.jobs && Outcome(s.jobs[r.id].wrapper).Some? && Outcome(s.jobs[r.id].wrapper).value.sent == 0
  {
    hide Reachable, ExitText, FinalKept, ExitState;
    ReachableInv(s);
    var r := s.reports[i];
    assert ReportOk(s.jobs, r);
    if r.state.Unreadable? {
      ExitOkOf(s, r.id);
      ReadingIs(Outcome(s.jobs[r.id].wrapper).value);
    }
  }

  /** A job whose id was handed out is reported lost only if its process was looked up and absent. */
  lemma LostMeansGone(s: State, i: nat)
    requires Reachable(s) && i < |s.reports|
    requires s.reports[i].returned && s.reports[i].state.Lost?
    ensures var r := s.reports[i];
      r.gone && r.id in s.jobs && (if r.noExit then NeverPublishes(s.jobs[r.id]) else s.jobs[r.id].exit.Some?)
  {
    hide Reachable, ExitText, FinalKept;
    ReachableInv(s);
    assert ReportOk(s.jobs, s.reports[i]);
  }

  /** Neither a restart nor anything else takes back a published result. */
  lemma ResultSurvives(s: State, t: State, id: nat)
    requires Reachable(s) && Leads(s, t)
    requires id in s.jobs && Outcome(s.jobs[id].wrapper).Some?
    ensures id in t.jobs && Outcome(t.jobs[id].wrapper) == Outcome(s.jobs[id].wrapper) && t.jobs[id].exit == s.jobs[id].exit
  {
    hide Reachable, Leads, ExitText, FinalKept;
    ReachableInv(s);
    LeadsKeeps(s, t);
    ExitOkOf(s, id);
  }

  // ── Which jobs can still be reported finished ──────────────────────────

  /** Some later request reports a final state for the job. */
  ghost predicate CanStillFinish(s: State, id: nat) {
    exists t: State, k: nat :: Leads(s, t) && k < |t.reports| && FinalLater(s, t.reports[k], id)
  }

  predicate FinalLater(s: State, r: Report, id: nat) {
    |s.reports| <= r.since && r.id == id && IsFinal(r)
  }

  lemma NeverFinal(s: State, t: State, id: nat, k: nat)
    requires Inv(s) && Leads(s, t) && id in s.jobs && !CanFinish(s.jobs[id])
    requires k < |t.reports|
    ensures !FinalLater(s, t.reports[k], id)
  {
    hide Leads, ExitText, FinalKept, ExitState;
    LeadsKeeps(s, t);
    if t.reports[k].id == id && IsFinal(t.reports[k]) {
      assert ReportOk(t.jobs, t.reports[k]);
      ExitOkOf(t, id);
      ReadingIs(Outcome(t.jobs[id].wrapper).value);
    }
  }

  /** Reached from `s` without any further report. */
  ghost predicate Quietly(s: State, t: State, id: nat) {
    Inv(t) && Leads(s, t) && t.reports == s.reports && id in t.jobs
  }

  lemma QuietStep(s: State, t: State, id: nat, a: Action)
    requires Quietly(s, t, id) && Step(t, a).reports == t.reports && id in Step(t, a).jobs
    ensures Quietly(s, Step(t, a), id)
  {
    hide Inv, Step, Leads;
    StepKeeps(t, a);
    LeadsStep(s, t, a);
  }

  /** With something readable in place, one more request finds it. */
  lemma FinishesPublished(s: State, t: State, id: nat)
    requires Quietly(s, t, id) && Outcome(t.jobs[id].wrapper).Some? && Outcome(t.jobs[id].wrapper).value.sent > 0
    ensures CanStillFinish(s, id)
  {
    hide Leads, ExitText, FinalKept, ExitState;
    assert JobOk(id, t.jobs[id]);
    ExitOkOf(t, id);
    var u, k := Step(t, Open(id)), |t.readers|;
    QuietStep(s, t, id, Open(id));
    PublishedIsReported(u, k);
    LeadsStep(s, u, ReadExit(k));
    ReadingIs(Outcome(u.jobs[id].wrapper).value);
    assert FinalLater(s, Step(u, ReadExit(k)).reports[|s.reports|], id);
  }

  /** A status being written can be written to its end and published. */
  lemma {:induction false} FinishesWriting(s: State, t: State, id: nat)
    requires Quietly(s, t, id) && t.jobs[id].wrapper.Writing? && CanFinish(t.jobs[id])
    ensures CanStillFinish(s, id)
    decreases |ExitText(t.jobs[id].wrapper.status)| - t.jobs[id].wrapper.written
  {
    hide Leads, ExitText, FinalKept, JobsOk, ReadersOk, ReportsOk;
    var w := t.jobs[id].wrapper;
    WritingBounds(t, id);
    if w.failed || w.written == |ExitText(w.status)| {
      QuietStep(s, t, id, Publish(id));
      FinishesPublished(s, Step(t, Publish(id)), id);
    } else {
      QuietStep(s, t, id, WriteMore(id));
      FinishesWriting(s, Step(t, WriteMore(id)), id);
    }
  }

  lemma WritingBounds(s: State, id: nat)
    requires Inv(s) && id in s.jobs && s.jobs[id].wrapper.Writing?
    ensures s.jobs[id].wrapper.written <= |ExitText(s.jobs[id].wrapper.status)| && |ExitText(s.jobs[id].wrapper.status)| > 0
  {
    ExitOkOf(s, id);
  }

  lemma FinishesRunning(s: State, t: State, id: nat)
    requires Quietly(s, t, id) && t.jobs[id].wrapper.Running?
    ensures CanStillFinish(s, id)
  {
    hide Leads, ExitText, FinalKept, JobsOk, ReadersOk, ReportsOk;
    QuietStep(s, t, id, Finish(id, 0));
    FinishesWriting(s, Step(t, Finish(id, 0)), id);
  }

  function StepsToStart(p: Spawner): nat {
    match p
    case Created => 4
    case TearingFirst => 3
    case WroteFirst => 2
    case PublishedFirst => 1
    case _ => 0
  }

  lemma SpawnerBounds(s: State, id: nat)
    requires Inv(s) && id in s.jobs && s.jobs[id].wrapper.NotStarted? && !s.jobs[id].spawner.Abandoned?
    ensures StepsToStart(s.jobs[id].spawner) > 0
  {
    hide ExitText, ReadersOk, ReportsOk, FinalKept;
    assert JobOk(id, s.jobs[id]);
  }

  lemma FreePid(alive: set<nat>) returns (pid: nat)
    ensures pid !in alive
  {
    if forall p: nat :: p <= |alive| ==> p in alive {
      TooManyPids(alive, |alive| + 1);
    }
    pid :| pid !in alive;
  }

  lemma {:induction false} TooManyPids(alive: set<nat>, n: nat)
    requires forall p: nat :: p < n ==> p in alive
    ensures n <= |alive|
    decreases n
  {
    if n > 0 {
      TooManyPids(alive - {n - 1}, n - 1);
    }
  }

  /** A spawner that has not failed can go on to start the wrapper. */
  lemma {:induction false} FinishesSpawning(s: State, t: State, id: nat)
    requires Quietly(s, t, id) && t.jobs[id].wrapper.NotStarted? && !t.jobs[id].spawner.Abandoned?
    ensures CanStillFinish(s, id)
    decreases StepsToStart(t.jobs[id].spawner)
  {
    hide Leads, ExitText, FinalKept, JobsOk, ReadersOk, ReportsOk;
    SpawnerBounds(t, id);
    var pid := FreePid(t.alive);
    QuietStep(s, t, id, Advance(id, pid));
    if t.jobs[id].spawner.PublishedFirst? {
      FinishesRunning(s, Step(t, Advance(id, pid)), id);
    } else {
      FinishesSpawning(s, Step(t, Advance(id, pid)), id);
    }
  }

  /** A job can still be reported finished exactly when nothing has made that impossible yet. */
  lemma FinishIff(s: State, id: nat)
    requires Reachable(s) && id in s.jobs
    ensures CanStillFinish(s, id) <==> CanFinish(s.jobs[id])
  {
    hide Reachable, Leads, Inv, FinalLater;
    ReachableInv(s);
    if CanFinish(s.jobs[id]) {
      LeadsSelf(s);
      var w := s.jobs[id].wrapper;
      if w.NotStarted? {
        FinishesSpawning(s, s, id);
      } else if w.Running? {
        FinishesRunning(s, s, id);
      } else if w.Writing? {
        FinishesWriting(s, s, id);
      } else {
        FinishesPublished(s, s, id);
      }
    } else {
      forall t: State, k: nat | Leads(s, t) && k < |t.reports|
        ensures !FinalLater(s, t.reports[k], id)
      {
        NeverFinal(s, t, id, k);
      }
    }
  }

  /**
   The exit file is looked for before the process. Of a job reported lost, its
   process absent, a result can still be reported exactly when the exit file was
   there at the time of the second look, unless it is empty; of one whose
   metadata named no process, exactly when the job is not abandoned before its
   wrapper started, and the wrapper has not ended without a readable result.
   */
  lemma LostFinalIff(s: State, i: nat)
    requires Reachable(s) && i < |s.reports| && s.reports[i].state.Lost?
    ensures var r := s.reports[i];
      && r.id in s.jobs
      && (CanStillFinish(s, r.id) <==> CanFinish(s.jobs[r.id]))
      && (r.gone ==> (r.noExit <==> NeverPublishes(s.jobs[r.id])))
      && (r.gone ==> (CanStillFinish(s, r.id) <==> !r.noExit && !EmptyExit(s.jobs[r.id])))
  {
    hide Reachable, CanStillFinish, ExitText, FinalKept;
    ReachableInv(s);
    var r := s.reports[i];
    assert ReportOk(s.jobs, r);
    ExitOkOf(s, r.id);
    FinishIff(s, r.id);
  }

  predicate EmptyExit(j: Job) {
    Outcome(j.wrapper).Some? && Outcome(j.wrapper).value.sent == 0
  }

  // ── Lost is not final: a run ───────────────────────────────────────────

  lemma Reach(s: State, a: Action)
    requires Reachable(s)
    ensures Reachable(Step(s, a))
  {
    LeadsStep(INITIAL, s, a);
  }

  const DOC: MetaDoc := Whole(0, Some(7))

  function Launched(j: Job): State {
    State(map[0 := j], if Live(j.wrapper) then {7} else {}, [], [])
  }

  lemma InitialReachable()
    ensures Reachable(INITIAL)
  {
    LeadsSelf(INITIAL);
  }

  lemma LaunchStart()
    ensures Reachable(Launched(Job(PublishedFirst, NotStarted, None, Some(Whole(0, None)), None, None)))
  {
    hide Reachable;
    InitialReachable();
    Reach(INITIAL, Create(0));
    var s1 := Launched(Job(Created, NotStarted, None, None, None, None));
    assert s1 == Step(INITIAL, Create(0));
    Reach(s1, Advance(0, 0));
    var s2 := Launched(Job(TearingFirst, NotStarted, Some(Torn), None, None, None));
    assert s2 == Step(s1, Advance(0, 0));
    Reach(s2, Advance(0, 0));
    var s3 := Launched(Job(WroteFirst, NotStarted, Some(Whole(0, None)), None, None, None));
    assert s3 == Step(s2, Advance(0, 0));
    Reach(s3, Advance(0, 0));
    assert Step(s3, Advance(0, 0)) == Launched(Job(PublishedFirst, NotStarted, None, Some(Whole(0, None)), None, None));
  }

  lemma LaunchEnd()
    ensures Reachable(Launched(Job(Returned, Running(7), None, Some(DOC), None, None)))
  {
    hide Reachable;
    LaunchStart();
    var s4 := Launched(Job(PublishedFirst, NotStarted, None, Some(Whole(0, None)), None, None));
    Reach(s4, Advance(0, 7));
    var s5 := Launched(Job(Started, Running(7), None, Some(Whole(0, None)), None, None));
    assert s5 == Step(s4, Advance(0, 7));
    Reach(s5, Advance(0, 0));
    var s6 := Launched(Job(TearingSecond, Running(7), Some(Torn), Some(Whole(0, None)), None, None));
    assert s6 == Step(s5, Advance(0, 0));
    Reach(s6, Advance(0, 0));
    var s7 := Launched(Job(WroteSecond, Running(7), Some(DOC), Some(Whole(0, None)), None, None));
    assert s7 == Step(s6, Advance(0, 0));
    Reach(s7, Advance(0, 0));
    var s8 := Launched(Job(PublishedSecond, Running(7), None, Some(DOC), None, None));
    assert s8 == Step(s7, Advance(0, 0));
    Reach(s8, Advance(0, 0));
    assert Step(s8, Advance(0, 0)) == Launched(Job(Returned, Running(7), None, Some(DOC), None, None));
  }

  /** A job handed out to its client, one request at `reader`. */
  function Handed(w: Wrapper, tmp: Option<string>, exit: Option<string>, reader: Reader, reports: seq<Report>): State {
    State(map[0 := Job(Returned, w, None, Some(DOC), tmp, exit)], if Live(w) then {7} else {}, [reader], reports)
  }

  /** The request looks for the exit file and misses it; only then does the job publish its 0 and end. */
  lemma RaceReached()
    ensures ExitText(0) == "0\n"
    ensures Reachable(Handed(Published(7, Exited(0, 2)), None, Some("0\n"), AtProc(0, Some(7), 0, true), []))
  {
    hide Reachable;
    LaunchEnd();
    var s9 := Launched(Job(Returned, Running(7), None, Some(DOC), None, None));
    Reach(s9, Open(0));
    var r0 := AtExit(0, Some(7), 0, true);
    var r1 := AtProc(0, Some(7), 0, true);
    var t0 := Handed(Running(7), None, None, r0, []);
    assert t0 == Step(s9, Open(0));
    Reach(t0, ReadExit(0));
    var t1 := Handed(Running(7), None, None, r1, []);
    assert t1 == Step(t0, ReadExit(0));
    Reach(t1, Finish(0, 0));
    assert ExitText(0) == "0\n";
    var t2 := Handed(Writing(7, 0, 0, false), Some(""), None, r1, []);
    assert t2 == Step(t1, Finish(0, 0));
    Reach(t2, WriteMore(0));
    var t3 := Handed(Writing(7, 0, 1, false), Some("0"), None, r1, []);
    assert t3 == Step(t2, WriteMore(0));
    Reach(t3, WriteMore(0));
    var t4 := Handed(Writing(7, 0, 2, false), Some("0\n"), None, r1, []);
    assert "0\n"[..2] == "0\n";
    assert t4 == Step(t3, WriteMore(0));
    Reach(t4, Publish(0));
    assert Step(t4, Publish(0)) == Handed(Published(7, Exited(0, 2)), None, Some("0\n"), r1, []);
  }

  const LOST_THEN_SUCCEEDED: seq<Report> :=
    [Report(0, 0, true, Lost, None, true, false), Report(0, 1, true, Succeeded, Some(0), false, false)]

  /** Some run reports a returned job lost, its process gone, and then succeeded. */
  lemma LostIsNotFinal()
    ensures exists s :: Reachable(s) && s.reports == LOST_THEN_SUCCEEDED
  {
    hide Reachable, ExitState;
    RaceReached();
    var u0 := Handed(Published(7, Exited(0, 2)), None, Some("0\n"), AtProc(0, Some(7), 0, true), []);
    Reach(u0, Exit(0));
    var u1 := Handed(Gone(7, Some(Exited(0, 2))), None, Some("0\n"), AtProc(0, Some(7), 0, true), []);
    assert u1 == Step(u0, Exit(0));
    Reach(u1, CheckProc(0));
    var lost := Report(0, 0, true, Lost, None, true, false);
    var u2 := Handed(Gone(7, Some(Exited(0, 2))), None, Some("0\n"), Finished, [lost]);
    assert u2 == Step(u1, CheckProc(0));
    Reach(u2, Open(0));
    var u3 := u2.(readers := [Finished, AtExit(0, Some(7), 1, true)]);
    assert u3 == Step(u2, Open(0));
    Reach(u3, ReadExit(1));
    ZeroReads();
    assert Step(u3, ReadExit(1)).reports == [lost, Report(0, 1, true, Succeeded, Some(0), false, false)];
  }

  lemma ZeroReads()
    ensures ExitState("0\n") == (Succeeded, Some(0))
  {
    ParseExitText(0);
    assert ExitText(0) == "0\n";
  }
}
