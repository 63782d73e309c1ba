/**
 One request handled by the host runner from end to end, as the code does it:
 append the write-ahead line, run the operation, append its outcome. Handling a
 request alone is one of the interleavings of AuditLog.
 */
module Dispatch {
  import opened Wrappers
  import opened AuditLog

  /** Where an append stops: nowhere, or after some bytes of its line (all of them if only flushing fails). */
  datatype Fault = Fine | CutAt(sent: nat)

  function SentBytes(body: Body, fault: Fault): (n: nat)
    ensures n <= |Bytes(body)|
  {
    if fault.Fine? || fault.sent > |body| then |body| + 1 else fault.sent
  }

  function AppendText(body: Body, fault: Fault): string {
    Bytes(body)[..SentBytes(body, fault)]
  }

  /** What the operation came to, and the text of its outcome's line. */
  datatype Effect = Effect(ok: bool, body: Body)

  datatype Answer = Invalid | NotExecuted | Success | Failure

  class AuditWriter {
    var log: string

    constructor ()
      ensures log == ""
    {
      log := "";
    }

    method Append(body: Body, fault: Fault) returns (ok: bool)
      modifies this
      ensures log == old(log) + AppendText(body, fault)
      ensures ok <==> fault.Fine?
    {
      var line := Bytes(body);
      var next, end := 0, SentBytes(body, fault);
      while next < end
        invariant 0 <= next <= end
        invariant log == old(log) + line[..next]
      {
        log := log + [line[next]];
        next := next + 1;
      }
      ok := fault.Fine?;
    }
  }

  /** What a request adds to the log when nothing else runs. */
  function DispatchText(valid: bool, body: Body, first: Fault, effect: Effect, second: Fault): string {
    AppendText(body, first) + (if valid && first.Fine? then AppendText(effect.body, second) else "")
  }

  function AnswerOf(valid: bool, first: Fault, effect: Effect): Answer {
    if !valid then Invalid else if !first.Fine? then NotExecuted else if effect.ok then Success else Failure
  }

  /** `body` is the first line's text; the operation would end in `effect`; the appends meet the two faults. */
  method DispatchRequest(audit: AuditWriter, valid: bool, body: Body, first: Fault, effect: Effect, second: Fault)
    returns (answer: Answer)
    modifies audit
    ensures audit.log == old(audit.log) + DispatchText(valid, body, first, effect, second)
    ensures answer == AnswerOf(valid, first, effect)
  {
    var written := audit.Append(body, first);
    if !valid {
      answer := Invalid;
    } else if !written {
      answer := NotExecuted;
    } else {
      var _ := audit.Append(effect.body, second);
      answer := if effect.ok then Success else Failure;
    }
  }

  // ── Alone is one of the interleavings ──────────────────────────────────

  ghost predicate Extends(actions: seq<Action>, t: State) {
    exists more :: Run(actions + more) == t
  }

  lemma ExtendsStep(actions: seq<Action>, s: State, a: Action)
    requires Extends(actions, s)
    ensures Extends(actions, Step(s, a))
  {
    hide Run, Step;
    var more :| Run(actions + more) == s;
    RunSnoc(actions + more, a);
    assert actions + more + [a] == actions + (more + [a]);
  }

  /** The state after one append has run undisturbed. */
  function Appended(s: State, r: nat, fault: Fault): State
    requires r < |s.requests| && s.requests[r].stage.Waiting?
  {
    var q := s.requests[r];
    var n := SentBytes(q.stage.body, fault);
    var done := q.(stage := Appending(q.stage.outcome, q.stage.body, n));
    State(s.requests[r := AfterAppend(done, fault.Fine?)], None, s.log + AppendText(q.stage.body, fault),
          if n == |q.stage.body| + 1 then s.written + [Line(r, q.stage.outcome, q.stage.body)] else s.written,
          s.spilled + Spill(done))
  }

  lemma AppendRuns(actions: seq<Action>, s: State, r: nat, fault: Fault)
    requires Extends(actions, s) && s.holder.None?
    requires r < |s.requests| && s.requests[r].stage.Waiting?
    ensures Extends(actions, Appended(s, r, fault))
  {
    hide Extends;
    var q := s.requests[r];
    var n := SentBytes(q.stage.body, fault);
    ExtendsStep(actions, s, Lock(r));
    var locked := Step(s, Lock(r));
    var sent := if n == 0 then locked else Step(locked, Write(r, n));
    if n > 0 {
      ExtendsStep(actions, locked, Write(r, n));
    }
    assert s.log + AppendText(q.stage.body, fault) == sent.log;
    var last := if fault.Fine? then AppendEnds(r) else AppendFails(r);
    ExtendsStep(actions, sent, last);
    assert Step(sent, last) == Appended(s, r, fault);
  }

  /**
   Whatever has happened before, handling one more request alone is a run of
   the interleaved machine with the same log; the operation is executed in it
   exactly when the answer says so.
   */
  lemma DispatchIsRun(actions: seq<Action>, valid: bool, body: Body, first: Fault, effect: Effect, second: Fault)
    requires Run(actions).holder.None?
    ensures exists t :: Extends(actions, t) && Handled(Run(actions), t, valid, body, first, effect, second)
  {
    hide Extends, Run, Appended, AppendText;
    var s := Run(actions);
    assert Extends(actions, s) by { ExtendsSelf(actions); }
    var r := |s.requests|;
    var opening := if valid then Accepted else Rejected;
    ExtendsStep(actions, s, Dispatch(valid, body));
    var s1 := Step(s, Dispatch(valid, body));
    AppendRuns(actions, s1, r, first);
    var s2 := Appended(s1, r, first);
    AppendedFacts(s1, r, first);
    if valid && first.Fine? {
      ExtendsStep(actions, s2, Respond(r, effect.ok, effect.body));
      var s3 := Step(s2, Respond(r, effect.ok, effect.body));
      AppendRuns(actions, s3, r, second);
      AppendedFacts(s3, r, second);
      assert s.log + AppendText(body, first) + AppendText(effect.body, second) == s.log + DispatchText(valid, body, first, effect, second);
      assert Handled(s, Appended(s3, r, second), valid, body, first, effect, second);
    } else {
      assert AppendText(body, first) + "" == AppendText(body, first);
      assert Handled(s, s2, valid, body, first, effect, second);
    }
  }

  predicate Handled(s: State, t: State, valid: bool, body: Body, first: Fault, effect: Effect, second: Fault) {
    && t.log == s.log + DispatchText(valid, body, first, effect, second)
    && t.requests == s.requests +
         [Request(valid, Over, AnswerOf(valid, first, effect).Success? || AnswerOf(valid, first, effect).Failure?)]
  }

  lemma ExtendsSelf(actions: seq<Action>)
    ensures Extends(actions, Run(actions))
  {
    hide Run;
    assert actions + [] == actions;
  }

  lemma AppendedFacts(s: State, r: nat, fault: Fault)
    requires r < |s.requests| && s.requests[r].stage.Waiting?
    ensures var t := Appended(s, r, fault); var q := s.requests[r];
      && t.holder.None? && t.log == s.log + AppendText(q.stage.body, fault)
      && t.requests == s.requests[r := if q.stage.outcome.Accepted? && fault.Fine?
                                       then q.(stage := Executing, executed := true) else q.(stage := Over)]
  {
  }
}
