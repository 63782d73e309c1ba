/**
 The host runner's write-ahead audit log. Connections are dispatched
 concurrently; each appends its audit lines under one lock, in as many writes as
 the file takes, and may be cut off anywhere by a failed write or by the runner
 stopping. Every interleaving is a sequence of actions.
 */
module AuditLog {
  import opened Wrappers

  /** A serialised event: JSON escapes line feeds, so none occurs in it. */
  type Body = s: string | '\n' !in s witness ""

  datatype Outcome = Rejected | Accepted | Completed | Failed

  datatype Line = Line(request: nat, outcome: Outcome, body: Body)

  /** Where a dispatched request is; `Over` once it is answered or the runner has stopped. */
  datatype Stage =
    | Waiting(outcome: Outcome, body: Body)
    | Appending(outcome: Outcome, body: Body, sent: nat)
    | Executing
    | Over

  datatype Request = Request(valid: bool, stage: Stage, executed: bool)

  /**
   `written` lists the events whose last byte has reached the file, in order;
   `spilled` counts the bytes left behind by appends that stopped inside a line.
   */
  datatype State = State(requests: seq<Request>, holder: Option<nat>, log: string, written: seq<Line>, spilled: nat)

  datatype Action =
    | Dispatch(valid: bool, body: Body)
    | Lock(r: nat)
    | Write(r: nat, count: nat)
    | AppendFails(r: nat)
    | AppendEnds(r: nat)
    | Respond(r: nat, ok: bool, body: Body)
    | Stop

  const INITIAL: State := State([], None, "", [], 0)

  function Bytes(body: string): string {
    body + "\n"
  }

  /** What `dispatch_request` does once an append has returned. */
  function AfterAppend(q: Request, ok: bool): Request
    requires q.stage.Appending?
  {
    if q.stage.outcome.Accepted? && ok then q.(stage := Executing, executed := true) else q.(stage := Over)
  }

  function InLine(q: Request): bool {
    q.stage.Appending? && q.stage.sent <= |q.stage.body|
  }

  /** The bytes a stopped append leaves behind unless its line was complete. */
  function Spill(q: Request): nat {
    if InLine(q) then q.stage.sent else 0
  }

  function Release(s: State, r: nat, ok: bool): State
    requires r < |s.requests| && s.requests[r].stage.Appending?
  {
    s.(requests := s.requests[r := AfterAppend(s.requests[r], ok)], holder := None,
       spilled := s.spilled + Spill(s.requests[r]))
  }

  function Send(s: State, r: nat, count: nat): State
    requires r < |s.requests| && s.requests[r].stage.Appending?
    requires s.requests[r].stage.sent + count <= |s.requests[r].stage.body| + 1
  {
    var stage := s.requests[r].stage;
    var sent := stage.sent + count;
    s.(requests := s.requests[r := s.requests[r].(stage := stage.(sent := sent))],
       log := s.log + Bytes(stage.body)[stage.sent..sent],
       written := if sent == |stage.body| + 1 then s.written + [Line(r, stage.outcome, stage.body)] else s.written)
  }

  predicate Active(s: State, r: nat) {
    r < |s.requests| && s.requests[r].stage.Appending?
  }

  function Step(s: State, a: Action): State {
    match a
    case Dispatch(valid, body) =>
      s.(requests := s.requests + [Request(valid, Waiting(if valid then Accepted else Rejected, body), false)])
    case Lock(r) =>
      if s.holder.None? && r < |s.requests| && s.requests[r].stage.Waiting? then
        var stage := s.requests[r].stage;
        s.(requests := s.requests[r := s.requests[r].(stage := Appending(stage.outcome, stage.body, 0))], holder := Some(r))
      else s
    case Write(r, count) =>
      if Active(s, r) && 0 < count && s.requests[r].stage.sent + count <= |s.requests[r].stage.body| + 1 then Send(s, r, count)
      else s
    case AppendFails(r) =>
      if Active(s, r) then Release(s, r, false) else s
    case AppendEnds(r) =>
      if Active(s, r) && !InLine(s.requests[r]) then Release(s, r, true) else s
    case Respond(r, ok, body) =>
      if r < |s.requests| && s.requests[r].stage.Executing? then
        s.(requests := s.requests[r := s.requests[r].(stage := Waiting(if ok then Completed else Failed, body))])
      else s
    case Stop =>
      s.(requests := seq(|s.requests|, i requires 0 <= i < |s.requests| => s.requests[i].(stage := Over)), holder := None,
         spilled := s.spilled + (if s.holder.Some? && s.holder.value < |s.requests| then Spill(s.requests[s.holder.value]) else 0))
  }

  function Run(actions: seq<Action>): State {
    if actions == [] then INITIAL else Step(Run(actions[..|actions| - 1]), actions[|actions| - 1])
  }

  // ── What the log should hold ───────────────────────────────────────────

  /** The audit trail of one request: the outcomes of its complete lines, in log order. */
  function Trail(written: seq<Line>, r: nat): seq<Outcome> {
    if written == [] then []
    else
      var init, last := written[..|written| - 1], written[|written| - 1];
      Trail(init, r) + (if last.request == r then [last.outcome] else [])
  }

  function Text(written: seq<Line>): string {
    if written == [] then "" else Text(written[..|written| - 1]) + Bytes(written[|written| - 1].body)
  }

  /** The part of an unfinished line already in the file. */
  function Partial(s: State): string {
    if s.holder.Some? && s.holder.value < |s.requests| && InLine(s.requests[s.holder.value]) then
      s.requests[s.holder.value].stage.body[..s.requests[s.holder.value].stage.sent]
    else ""
  }

  // ── The invariant ──────────────────────────────────────────────────────

  /** The lines that must precede an append of this outcome. */
  function Before(outcome: Outcome): seq<Outcome> {
    if outcome.Completed? || outcome.Failed? then [Accepted] else []
  }

  predicate Allowed(trail: seq<Outcome>) {
    trail <= [Accepted, Completed] || trail <= [Accepted, Failed] || trail == [Rejected]
  }

  /** What a request's stage says about its trail. */
  predicate RequestOk(q: Request, trail: seq<Outcome>) {
    && Allowed(trail)
    && (q.executed ==> q.valid && |trail| > 0 && trail[0] == Accepted)
    && (!q.valid ==> trail == [] || trail == [Rejected])
    && (q.valid ==> trail != [Rejected])
    && match q.stage
       case Waiting(outcome, _) => trail == Before(outcome) && Fits(q, outcome)
       case Appending(outcome, body, sent) =>
         && sent <= |body| + 1
         && trail == (if sent <= |body| then Before(outcome) else Before(outcome) + [outcome]) && Fits(q, outcome)
       case Executing => trail == [Accepted] && q.executed
       case Over => true
  }

  /** Rejection is for invalid requests; completion and failure for executed ones. */
  predicate Fits(q: Request, outcome: Outcome) {
    match outcome
    case Rejected => !q.valid && !q.executed
    case Accepted => q.valid && !q.executed
    case _ => q.valid && q.executed
  }

  ghost predicate LockOk(s: State) {
    && (s.holder.Some? ==> s.holder.value < |s.requests| && s.requests[s.holder.value].stage.Appending?)
    && (forall r :: 0 <= r < |s.requests| && s.requests[r].stage.Appending? ==> s.holder == Some(r))
  }

  ghost predicate TrailsOk(s: State) {
    && (forall r: nat :: r < |s.requests| ==> RequestOk(s.requests[r], Trail(s.written, r)))
    && (forall i :: 0 <= i < |s.written| ==> s.written[i].request < |s.requests|)
  }

  predicate LogOk(s: State) {
    && |s.log| == |Text(s.written)| + |Partial(s)| + s.spilled
    && (s.spilled == 0 ==> s.log == Text(s.written) + Partial(s))
  }

  ghost predicate Inv(s: State) {
    LockOk(s) && TrailsOk(s) && LogOk(s)
  }

  lemma {:induction false} NoTrailYet(written: seq<Line>, r: nat)
    requires forall i :: 0 <= i < |written| ==> written[i].request != r
    ensures Trail(written, r) == []
  {
    if written != [] {
      NoTrailYet(written[..|written| - 1], r);
    }
  }

  lemma TrailSnoc(written: seq<Line>, l: Line, r: nat)
    ensures Trail(written + [l], r) == Trail(written, r) + (if l.request == r then [l.outcome] else [])
  {
    assert (written + [l])[..|written|] == written;
  }

  lemma TextSnoc(written: seq<Line>, l: Line)
    ensures Text(written + [l]) == Text(written) + Bytes(l.body)
  {
    assert (written + [l])[..|written|] == written;
  }

  lemma DispatchKeeps(s: State, valid: bool, body: Body)
    requires Inv(s)
    ensures Inv(Step(s, Dispatch(valid, body)))
  {
    NoTrailYet(s.written, |s.requests|);
  }

  lemma LockKeeps(s: State, r: nat)
    requires Inv(s)
    ensures Inv(Step(s, Lock(r)))
  {
    hide Trail, Text;
  }

  lemma RespondKeeps(s: State, r: nat, ok: bool, body: Body)
    requires Inv(s)
    ensures Inv(Step(s, Respond(r, ok, body)))
  {
    hide Trail, Text;
  }

  lemma ReleaseLog(s: State, r: nat, ok: bool)
    requires Inv(s) && Active(s, r) && (ok ==> !InLine(s.requests[r]))
    ensures LogOk(Release(s, r, ok))
  {
    hide Trail, Text, TrailsOk;
    assert s.holder == Some(r);
  }

  lemma ReleaseKeeps(s: State, r: nat, ok: bool)
    requires Inv(s) && Active(s, r) && (ok ==> !InLine(s.requests[r]))
    ensures Inv(Release(s, r, ok))
  {
    hide Trail, Text, LogOk, Allowed;
    ReleaseLog(s, r, ok);
  }

  lemma StopKeeps(s: State)
    requires Inv(s)
    ensures Inv(Step(s, Stop))
  {
    hide Trail, Text;
  }

  lemma BeforeThen(outcome: Outcome)
    ensures Allowed(Before(outcome) + [outcome])
    ensures var t := Before(outcome) + [outcome];
      (outcome.Rejected? ==> t == [Rejected]) && (!outcome.Rejected? ==> t != [Rejected] && t[0] == Accepted)
  {
    assert [Accepted] + [Completed] == [Accepted, Completed];
    assert [Accepted] + [Failed] == [Accepted, Failed];
    assert [] + [Accepted] == [Accepted];
    assert [] + [Rejected] == [Rejected];
  }

  /** What one more write makes of a request and its trail. */
  lemma SentOk(q: Request, count: nat, trail: seq<Outcome>)
    requires q.stage.Appending? && 0 < count && q.stage.sent + count <= |q.stage.body| + 1 && RequestOk(q, trail)
    ensures var sent := q.stage.sent + count;
      RequestOk(q.(stage := q.stage.(sent := sent)), trail + if sent == |q.stage.body| + 1 then [q.stage.outcome] else [])
  {
    assert trail + [] == trail;
    BeforeThen(q.stage.outcome);
  }

  lemma SendTrails(s: State, r: nat, count: nat)
    requires Inv(s) && Active(s, r) && 0 < count && s.requests[r].stage.sent + count <= |s.requests[r].stage.body| + 1
    ensures LockOk(Send(s, r, count)) && TrailsOk(Send(s, r, count))
  {
    hide Text, Trail, RequestOk;
    var stage := s.requests[r].stage;
    var next := Send(s, r, count);
    var l := Line(r, stage.outcome, stage.body);
    forall k: nat | k < |next.requests|
      ensures RequestOk(next.requests[k], Trail(next.written, k))
    {
      TrailSnoc(s.written, l, k);
      assert RequestOk(s.requests[k], Trail(s.written, k));
      assert Trail(s.written, k) + [] == Trail(s.written, k);
      if k == r {
        SentOk(s.requests[r], count, Trail(s.written, r));
      }
    }
  }

  lemma LineGrows(before: string, body: string, i: nat, j: nat)
    requires i <= |body| && i <= j <= |body| + 1
    ensures before + body[..i] + Bytes(body)[i..j] == before + Bytes(body)[..j]
    ensures j <= |body| ==> Bytes(body)[..j] == body[..j]
    ensures j == |body| + 1 ==> Bytes(body)[..j] == Bytes(body)
  {
    assert Bytes(body)[..i] == body[..i];
    assert Bytes(body)[..i] + Bytes(body)[i..j] == Bytes(body)[..j];
  }

  lemma SendLog(s: State, r: nat, count: nat)
    requires Inv(s) && Active(s, r) && 0 < count && s.requests[r].stage.sent + count <= |s.requests[r].stage.body| + 1
    ensures LogOk(Send(s, r, count))
  {
    hide Text, Trail;
    var stage := s.requests[r].stage;
    var sent := stage.sent + count;
    var line := Bytes(stage.body);
    TextSnoc(s.written, Line(r, stage.outcome, stage.body));
    assert RequestOk(s.requests[r], Trail(s.written, r));
    LineGrows(Text(s.written), stage.body, stage.sent, sent);
  }

  lemma StepKeeps(s: State, a: Action)
    requires Inv(s)
    ensures Inv(Step(s, a))
  {
    match a
    case Dispatch(valid, body) => DispatchKeeps(s, valid, body);
    case Lock(r) => LockKeeps(s, r);
    case Write(r, count) =>
      if Active(s, r) && 0 < count && s.requests[r].stage.sent + count <= |s.requests[r].stage.body| + 1 {
        SendTrails(s, r, count);
        SendLog(s, r, count);
      }
    case AppendFails(r) =>
      if Active(s, r) {
        ReleaseKeeps(s, r, false);
      }
    case AppendEnds(r) =>
      if Active(s, r) && !InLine(s.requests[r]) {
        ReleaseKeeps(s, r, true);
      }
    case Respond(r, ok, body) => RespondKeeps(s, r, ok, body);
    case Stop => StopKeeps(s);
  }

  lemma {:induction false} RunInv(actions: seq<Action>)
    ensures Inv(Run(actions))
  {
    hide Step;
    if actions == [] {
      assert Run(actions) == INITIAL;
    } else {
      RunInv(actions[..|actions| - 1]);
      StepKeeps(Run(actions[..|actions| - 1]), actions[|actions| - 1]);
    }
  }

  // ── What every run promises: one request ───────────────────────────────

  /**
   In every interleaving the lines of one request are a prefix of
   accepted-completed or accepted-failed, or a single rejection; a rejected
   request is never executed, an executed one always has its accepted line.
   */
  lemma TrailAllowed(actions: seq<Action>, r: nat)
    requires r < |Run(actions).requests|
    ensures var q := Run(actions).requests[r]; var trail := Trail(Run(actions).written, r);
      && Allowed(trail)
      && (q.executed ==> q.valid && |trail| > 0 && trail[0] == Accepted)
      && (!q.valid ==> trail == [] || trail == [Rejected])
      && (trail == [Rejected] ==> !q.valid && !q.executed)
  {
    hide Run, Trail, LogOk;
    RunInv(actions);
  }

  lemma RunSnoc(actions: seq<Action>, a: Action)
    ensures Run(actions + [a]) == Step(Run(actions), a)
  {
    hide Step;
    assert (actions + [a])[..|actions|] == actions;
  }

  /** An accepted line does not mean the operation ran: the append may fail after its last byte. */
  lemma AcceptedYetNotExecuted()
    ensures exists actions :: AcceptedOnly(Run(actions))
  {
    hide Run;
    var s1 := State([Request(true, Waiting(Accepted, ""), false)], None, "", [], 0);
    var s2 := State([Request(true, Appending(Accepted, "", 0), false)], Some(0), "", [], 0);
    var s3 := State([Request(true, Appending(Accepted, "", 1), false)], Some(0), "\n", [Line(0, Accepted, "")], 0);
    EmptyRun();
    RunSnoc([], Dispatch(true, ""));
    assert Run([] + [Dispatch(true, "")]) == s1;
    RunSnoc([] + [Dispatch(true, "")], Lock(0));
    assert Run([] + [Dispatch(true, "")] + [Lock(0)]) == s2;
    RunSnoc([] + [Dispatch(true, "")] + [Lock(0)], Write(0, 1));
    assert "" + Bytes("")[0..1] == "\n";
    assert Run([] + [Dispatch(true, "")] + [Lock(0)] + [Write(0, 1)]) == s3;
    RunSnoc([] + [Dispatch(true, "")] + [Lock(0)] + [Write(0, 1)], AppendFails(0));
    OneAccepted();
  }

  predicate AcceptedOnly(s: State) {
    |s.requests| == 1 && s.requests[0] == Request(true, Over, false) && Trail(s.written, 0) == [Accepted]
  }

  lemma EmptyRun()
    ensures Run([]) == INITIAL
  {
  }

  lemma OneAccepted()
    ensures Trail([Line(0, Accepted, "")], 0) == [Accepted]
  {
    TrailSnoc([], Line(0, Accepted, ""), 0);
    assert [] + [Line(0, Accepted, "")] == [Line(0, Accepted, "")];
  }

  /** The accepted line of the request is complete and its operation will never run. */
  predicate Stranded(s: State, r: nat) {
    r < |s.requests| && s.requests[r].stage.Over? && !s.requests[r].executed && Trail(s.written, r) == [Accepted]
  }

  /** This step ends the append of a complete accepted line with a failure, or with the runner. */
  predicate Strands(s: State, a: Action, r: nat) {
    && r < |s.requests| && s.requests[r].stage.Appending? && s.requests[r].stage.outcome.Accepted?
    && !InLine(s.requests[r]) && (a == AppendFails(r) || a.Stop?)
  }

  lemma StepStrands(s: State, a: Action, r: nat)
    requires Inv(s)
    ensures Stranded(Step(s, a), r) <==> Stranded(s, r) || Strands(s, a, r)
  {
    hide Trail, Text, LogOk;
    if r < |s.requests| {
      assert RequestOk(s.requests[r], Trail(s.written, r));
      if !(a.Write? && a.r == r) {
        StepTrail(s, a, r);
      }
    }
  }

  /** Only a request's own writes add to its trail. */
  lemma StepTrail(s: State, a: Action, r: nat)
    requires r < |s.requests| && !(a.Write? && a.r == r)
    ensures Trail(Step(s, a).written, r) == Trail(s.written, r)
  {
    hide Trail, Text, LogOk;
    if a.Write? && Active(s, a.r) && a.r != r {
      TrailSnoc(s.written, Line(a.r, s.requests[a.r].stage.outcome, s.requests[a.r].stage.body), r);
      assert Trail(s.written, r) + [] == Trail(s.written, r);
    }
  }

  ghost predicate SomeStrands(actions: seq<Action>, r: nat) {
    exists k :: 0 <= k < |actions| && Strands(Run(actions[..k]), actions[k], r)
  }

  /**
   A request has its accepted line without ever being executed exactly when its
   append failed, or the runner stopped, after the last byte of that line.
   */
  lemma {:induction false} StrandedIff(actions: seq<Action>, r: nat)
    ensures Stranded(Run(actions), r) <==> SomeStrands(actions, r)
  {
    hide Step, Stranded, Strands, Inv;
    if actions == [] {
      NothingStranded(r);
    } else {
      var init, last := actions[..|actions| - 1], actions[|actions| - 1];
      StrandedIff(init, r);
      RunInv(init);
      StepStrands(Run(init), last, r);
      assert forall k :: 0 <= k < |init| ==> init[..k] == actions[..k] && init[k] == actions[k];
      assert SomeStrands(actions, r) <==> SomeStrands(init, r) || Strands(Run(init), last, r);
    }
  }

  lemma NothingStranded(r: nat)
    ensures !Stranded(INITIAL, r)
  {
  }
}
