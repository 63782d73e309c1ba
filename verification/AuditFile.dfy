/**
 The audit log as a file: when it is whole lines, when a reader finds each event
 on a line of its own, and when two requests share a line.
 */
module AuditFile {
  import opened Wrappers
  import opened AuditLog

  // ── What every run promises: the file ──────────────────────────────────

  /** This step ends an append inside its line, after at least one byte. */
  predicate Tears(s: State, a: Action) {
    match a
    case AppendFails(r) => Active(s, r) && Spill(s.requests[r]) > 0
    case Stop => s.holder.Some? && s.holder.value < |s.requests| && Spill(s.requests[s.holder.value]) > 0
    case _ => false
  }

  ghost predicate NeverTears(actions: seq<Action>) {
    forall k :: 0 <= k < |actions| ==> !Tears(Run(actions[..k]), actions[k])
  }

  lemma SpillStep(s: State, a: Action)
    requires Inv(s)
    ensures Step(s, a).spilled >= s.spilled && (Step(s, a).spilled == s.spilled <==> !Tears(s, a))
  {
    hide Trail, Text;
  }

  lemma {:induction false} SpilledIff(actions: seq<Action>)
    ensures Run(actions).spilled == 0 <==> NeverTears(actions)
  {
    hide Step, Tears, Inv;
    if actions != [] {
      var init, last := actions[..|actions| - 1], actions[|actions| - 1];
      SpilledIff(init);
      RunInv(init);
      SpillStep(Run(init), last);
      assert forall k :: 0 <= k < |init| ==> init[..k] == actions[..k] && init[k] == actions[k];
      assert actions[..|actions| - 1] == init;
    }
  }

  /**
   While no append is under way the log is exactly the complete lines, in the
   order they were finished, if and only if no append ever stopped inside its
   line; and during an append it ends in a part of that one line.
   */
  lemma LogIsWholeLines(actions: seq<Action>)
    ensures var s := Run(actions); s.holder.None? ==> (s.log == Text(s.written) <==> NeverTears(actions))
    ensures NeverTears(actions) ==> Run(actions).log == Text(Run(actions).written) + Partial(Run(actions))
  {
    hide Run, Trail, Text, NeverTears;
    RunInv(actions);
    SpilledIff(actions);
    var s := Run(actions);
    if s.holder.None? {
      assert Text(s.written) + "" == Text(s.written);
    }
  }

  /** The step that starts an operation finds its accepted line, and nothing else of it, complete in the log. */
  lemma ExecutesAfterAccepted(actions: seq<Action>, a: Action, r: nat)
    requires r < |Run(actions).requests| && r < |Run(actions + [a]).requests|
    requires !Run(actions).requests[r].executed && Run(actions + [a]).requests[r].executed
    ensures Trail(Run(actions).written, r) == [Accepted]
    ensures NeverTears(actions) ==> Run(actions).log == Text(Run(actions).written)
  {
    hide Run, Trail, Text, NeverTears;
    RunInv(actions);
    RunSnoc(actions, a);
    LogIsWholeLines(actions);
    var s := Run(actions);
    assert RequestOk(s.requests[r], Trail(s.written, r));
  }

  // ── The log as a reader sees it ────────────────────────────────────────

  /** The lines of a text; an unfinished last one counts. */
  function LinesOf(text: string, line: string): seq<string> {
    if text == "" then (if line == "" then [] else [line])
    else if text[0] == '\n' then [line] + LinesOf(text[1..], "")
    else LinesOf(text[1..], line + [text[0]])
  }

  function Bodies(written: seq<Line>): seq<string> {
    if written == [] then [] else Bodies(written[..|written| - 1]) + [written[|written| - 1].body]
  }

  lemma {:induction false} LinesBreak(first: string, rest: string, line: string)
    ensures LinesOf(first + "\n" + rest, line) == LinesOf(first + "\n", line) + LinesOf(rest, "")
    decreases |first|
  {
    if first == "" {
      assert "" + "\n" + rest == "\n" + rest && "" + "\n" == "\n";
      assert ("\n" + rest)[1..] == rest && "\n"[1..] == "";
      assert LinesOf("\n", line) == [line];
    } else {
      assert (first + "\n" + rest)[1..] == first[1..] + "\n" + rest;
      assert (first + "\n")[1..] == first[1..] + "\n";
      if first[0] == '\n' {
        LinesBreak(first[1..], rest, "");
        Assoc3([line], LinesOf(first[1..] + "\n", ""), LinesOf(rest, ""));
      } else {
        LinesBreak(first[1..], rest, line + [first[0]]);
      }
    }
  }

  lemma Assoc3(a: seq<string>, b: seq<string>, c: seq<string>)
    ensures a + (b + c) == (a + b) + c
  {
  }

  lemma {:induction false} LinesOfOne(body: string, line: string)
    requires '\n' !in body
    ensures LinesOf(body + "\n", line) == [line + body]
    decreases |body|
  {
    if body == "" {
      assert body + "\n" == "\n" && line + body == line;
      assert LinesOf("\n"[1..], "") == [];
    } else {
      assert (body + "\n")[1..] == body[1..] + "\n";
      LinesOfOne(body[1..], line + [body[0]]);
      assert line + [body[0]] + body[1..] == line + body;
    }
  }

  lemma {:induction false} LinesOfText(written: seq<Line>)
    ensures LinesOf(Text(written), "") == Bodies(written)
  {
    if written != [] {
      var init, body := written[..|written| - 1], written[|written| - 1].body;
      LinesOfText(init);
      LinesOfOne(body, "");
      assert "" + body == body;
      if init == [] {
        assert Text(written) == Bytes(body) by { assert "" + Bytes(body) == Bytes(body); }
        assert [] + [body] == [body];
      } else {
        var before := Text(init[..|init| - 1]) + init[|init| - 1].body;
        assert Text(init) == before + "\n";
        LinesBreak(before, Bytes(body), "");
      }
    }
  }

  // Counting line feeds: an untorn log has one for each event, and no other log can read like one.

  function Newlines(text: string): nat {
    if text == "" then 0 else (if text[0] == '\n' then 1 else 0) + Newlines(text[1..])
  }

  lemma {:induction false} NewlinesAppend(a: string, b: string)
    ensures Newlines(a + b) == Newlines(a) + Newlines(b)
    decreases |a|
  {
    if a == "" {
      assert a + b == b;
    } else {
      assert (a + b)[1..] == a[1..] + b;
      NewlinesAppend(a[1..], b);
    }
  }

  lemma {:induction false} NoNewlines(text: string)
    requires '\n' !in text
    ensures Newlines(text) == 0
  {
    if text != "" { NoNewlines(text[1..]); }
  }

  /** A piece of a line has a line feed exactly when it reaches the line's end. */
  lemma PieceNewlines(body: string, i: nat, j: nat)
    requires '\n' !in body && i < j <= |body| + 1
    ensures Newlines(Bytes(body)[i..j]) == if j == |body| + 1 then 1 else 0
  {
    if j == |body| + 1 {
      assert Bytes(body)[i..j] == body[i..] + "\n";
      NewlinesAppend(body[i..], "\n");
      NoNewlines(body[i..]);
      assert Newlines("\n") == 1;
    } else {
      assert Bytes(body)[i..j] == body[i..j];
      NoNewlines(body[i..j]);
    }
  }

  lemma {:induction false} LogNewlines(actions: seq<Action>)
    ensures Newlines(Run(actions).log) == |Run(actions).written|
  {
    hide Newlines, Inv;
    if actions == [] {
      EmptyNewlines();
    } else {
      var s, a := Run(actions[..|actions| - 1]), actions[|actions| - 1];
      LogNewlines(actions[..|actions| - 1]);
      if Effective(s, a) {
        var stage := s.requests[a.r].stage;
        PieceNewlines(stage.body, stage.sent, stage.sent + a.count);
        NewlinesAppend(s.log, Bytes(stage.body)[stage.sent..stage.sent + a.count]);
      }
    }
  }

  lemma EmptyNewlines()
    ensures Newlines("") == 0
  {
  }

  function TotalLength(lines: seq<string>): nat {
    if lines == [] then 0 else |lines[0]| + TotalLength(lines[1..])
  }

  lemma {:induction false} TotalSnoc(lines: seq<string>, line: string)
    ensures TotalLength(lines + [line]) == TotalLength(lines) + |line|
    decreases |lines|
  {
    if lines == [] {
      assert (lines + [line])[1..] == [];
    } else {
      assert (lines + [line])[1..] == lines[1..] + [line];
      TotalSnoc(lines[1..], line);
    }
  }

  /** Reading a text line by line drops its line feeds and nothing else. */
  lemma {:induction false} LinesLength(text: string, line: string)
    ensures TotalLength(LinesOf(text, line)) + Newlines(text) == |text| + |line|
    decreases |text|
  {
    if text == "" {
      assert line != "" ==> [line][1..] == [];
    } else if text[0] == '\n' {
      LinesLength(text[1..], "");
      assert ([line] + LinesOf(text[1..], ""))[1..] == LinesOf(text[1..], "");
    } else {
      LinesLength(text[1..], line + [text[0]]);
    }
  }

  lemma {:induction false} BodiesLength(written: seq<Line>)
    ensures TotalLength(Bodies(written)) + |written| == |Text(written)|
    decreases |written|
  {
    if written != [] {
      BodiesLength(written[..|written| - 1]);
      TotalSnoc(Bodies(written[..|written| - 1]), written[|written| - 1].body);
    }
  }

  /**
   Between appends, a log read back line by line gives exactly the events
   written, each on its own line, if and only if no append stopped inside its line.
   */
  lemma LinesNeverMix(actions: seq<Action>)
    requires Run(actions).holder.None?
    ensures LinesOf(Run(actions).log, "") == Bodies(Run(actions).written) <==> NeverTears(actions)
  {
    hide Run, Text, NeverTears, LinesOf, Bodies, Newlines, TotalLength, LockOk, TrailsOk;
    var s := Run(actions);
    if NeverTears(actions) {
      LogIsWholeLines(actions);
      LinesOfText(s.written);
    } else if LinesOf(s.log, "") == Bodies(s.written) {
      LinesLength(s.log, "");
      BodiesLength(s.written);
      LogNewlines(actions);
      RunInv(actions);
      SpilledIff(actions);
    }
  }

  // ── When two requests share a line ─────────────────────────────────────

  /** A write that reaches the file. */
  predicate Effective(s: State, a: Action) {
    a.Write? && Active(s, a.r) && 0 < a.count && s.requests[a.r].stage.sent + a.count <= |s.requests[a.r].stage.body| + 1
  }

  /** For each byte of the file, the request that wrote it. */
  function Owners(actions: seq<Action>): seq<nat> {
    if actions == [] then []
    else
      var init, last := actions[..|actions| - 1], actions[|actions| - 1];
      Owners(init) + if Effective(Run(init), last) then seq(last.count, _ => last.r) else []
  }

  lemma {:induction false} OwnersLength(actions: seq<Action>)
    ensures |Owners(actions)| == |Run(actions).log|
  {
    if actions != [] {
      OwnersLength(actions[..|actions| - 1]);
    }
  }

  /** Somewhere in the file a byte follows another's within one line. */
  ghost predicate SharesLine(log: string, owners: seq<nat>)
    requires |owners| == |log|
  {
    exists i :: 0 < i < |log| && Joins(log, owners, i)
  }

  predicate Joins(log: string, owners: seq<nat>, i: nat)
    requires |owners| == |log| && 0 < i < |log|
  {
    log[i - 1] != '\n' && owners[i - 1] != owners[i]
  }

  ghost predicate WriteAfterTear(actions: seq<Action>) {
    exists k :: 0 <= k < |actions| && Effective(Run(actions[..k]), actions[k]) && !NeverTears(actions[..k])
  }

  /** The file ends inside a line. */
  predicate OpenEnd(s: State, owners: seq<nat>) {
    s.log != "" && |owners| == |s.log| && s.log[|s.log| - 1] != '\n'
  }

  predicate IsOver(s: State, r: nat) {
    r < |s.requests| && s.requests[r].stage.Over?
  }

  /** An append is under way inside its line. */
  predicate MidLine(s: State, r: nat) {
    s.holder == Some(r) && r < |s.requests| && InLine(s.requests[r]) && s.requests[r].stage.sent > 0
  }

  /**
   As long as nothing was written after a tear: the file ends in the torn line
   of a request that is over, or in the line now being appended.
   */
  ghost predicate EndsOk(s: State, owners: seq<nat>) {
    && |owners| == |s.log|
    && (s.spilled > 0 ==> OpenEnd(s, owners) && IsOver(s, owners[|owners| - 1]))
    && (s.spilled == 0 ==> forall r :: MidLine(s, r) ==> OpenEnd(s, owners) && owners[|owners| - 1] == r)
  }

  lemma OverStays(s: State, a: Action, r: nat)
    requires IsOver(s, r)
    ensures IsOver(Step(s, a), r)
  {
  }

  lemma TornNow(s: State, a: Action)
    requires Inv(s) && s.spilled == 0 && Step(s, a).spilled > 0
    ensures s.holder.Some? && MidLine(s, s.holder.value) && IsOver(Step(s, a), s.holder.value)
  {
    hide Trail, Text, TrailsOk, LogOk;
  }

  lemma MidLineBefore(s: State, a: Action, r: nat)
    requires Inv(s) && !Effective(s, a) && MidLine(Step(s, a), r)
    ensures MidLine(s, r)
  {
    hide Trail, Text, TrailsOk, LogOk;
  }

  lemma QuietEnds(s: State, a: Action, owners: seq<nat>)
    requires Inv(s) && EndsOk(s, owners) && !Effective(s, a)
    ensures EndsOk(Step(s, a), owners)
  {
    hide Inv, Step, MidLine, IsOver, Effective;
    var t := Step(s, a);
    QuietLog(s, a);
    if s.spilled > 0 {
      OverStays(s, a, owners[|owners| - 1]);
      SpillStep(s, a);
    } else if t.spilled > 0 {
      TornNow(s, a);
    } else {
      forall r | MidLine(t, r)
        ensures OpenEnd(t, owners) && owners[|owners| - 1] == r
      {
        MidLineBefore(s, a, r);
      }
    }
  }

  lemma TextEnds(written: seq<Line>)
    ensures Text(written) != "" ==> Text(written)[|Text(written)| - 1] == '\n'
  {
  }

  /** An untorn file is only continued inside the appending request's own line. */
  lemma WriteContinues(s: State, a: Action, owners: seq<nat>)
    requires Inv(s) && EndsOk(s, owners) && s.spilled == 0 && Effective(s, a) && s.log != ""
    ensures s.log[|s.log| - 1] == '\n' || owners[|owners| - 1] == a.r
  {
    hide Trail, Text, TrailsOk;
    if s.requests[a.r].stage.sent == 0 {
      assert Text(s.written) + "" == Text(s.written);
      TextEnds(s.written);
    } else {
      assert MidLine(s, a.r);
    }
  }

  lemma WriteEnds(s: State, a: Action, owners: seq<nat>)
    requires Inv(s) && EndsOk(s, owners) && s.spilled == 0 && Effective(s, a)
    ensures EndsOk(Step(s, a), owners + seq(a.count, _ => a.r))
  {
    hide Trail, Text, TrailsOk, LogOk;
    var stage, t := s.requests[a.r].stage, Step(s, a);
    var piece := Bytes(stage.body)[stage.sent..stage.sent + a.count];
    assert t.log[|t.log| - 1] == piece[a.count - 1] == Bytes(stage.body)[stage.sent + a.count - 1];
  }

  /** Adding bytes of one request shares a line only at the seam. */
  lemma SharesSeam(log: string, owners: seq<nat>, piece: string, r: nat)
    requires |owners| == |log| && piece != ""
    ensures SharesLine(log + piece, owners + seq(|piece|, _ => r)) <==>
      SharesLine(log, owners) || (log != "" && log[|log| - 1] != '\n' && owners[|log| - 1] != r)
  {
    var all, whose := log + piece, owners + seq(|piece|, _ => r);
    if SharesLine(log, owners) {
      var i :| 0 < i < |log| && Joins(log, owners, i);
      assert Joins(all, whose, i);
    }
    if log != "" && log[|log| - 1] != '\n' && owners[|log| - 1] != r {
      assert Joins(all, whose, |log|);
    }
    if SharesLine(all, whose) {
      var i :| 0 < i < |all| && Joins(all, whose, i);
      if i < |log| {
        assert Joins(log, owners, i);
      }
    }
  }

  lemma AfterTearSnoc(actions: seq<Action>)
    requires actions != []
    ensures var init, last := actions[..|actions| - 1], actions[|actions| - 1];
      WriteAfterTear(actions) <==> WriteAfterTear(init) || (Effective(Run(init), last) && !NeverTears(init))
  {
    hide Run, Effective, NeverTears;
    var init := actions[..|actions| - 1];
    assert forall k :: 0 <= k < |init| ==> init[..k] == actions[..k] && init[k] == actions[k];
    if WriteAfterTear(init) {
      var k :| 0 <= k < |init| && Effective(Run(init[..k]), init[k]) && !NeverTears(init[..k]);
      assert Effective(Run(actions[..k]), actions[k]) && !NeverTears(actions[..k]);
    }
  }

  /** Two requests share a line of the file exactly when something was written after an append stopped inside its line. */
  lemma {:induction false} SharedIff(actions: seq<Action>)
    ensures |Owners(actions)| == |Run(actions).log|
    ensures SharesLine(Run(actions).log, Owners(actions)) <==> WriteAfterTear(actions)
    ensures !WriteAfterTear(actions) ==> EndsOk(Run(actions), Owners(actions))
  {
    hide Step, Inv, EndsOk, SharesLine, WriteAfterTear, NeverTears;
    OwnersLength(actions);
    if actions == [] {
      NothingShared();
    } else {
      var init, last := actions[..|actions| - 1], actions[|actions| - 1];
      var s, owners := Run(init), Owners(init);
      SharedIff(init);
      RunInv(init);
      SpilledIff(init);
      AfterTearSnoc(actions);
      if Effective(s, last) {
        WriteStep(s, last, owners);
        SharesSeam(s.log, owners, Piece(s, last), last.r);
        if !WriteAfterTear(init) {
          if NeverTears(init) {
            WriteEnds(s, last, owners);
            if s.log != "" { WriteContinues(s, last, owners); }
          } else {
            TornBefore(s, last, owners);
          }
        }
      } else {
        QuietLog(s, last);
        assert owners + [] == owners;
        if !WriteAfterTear(init) {
          QuietEnds(s, last, owners);
        }
      }
    }
  }

  lemma NothingShared()
    ensures !SharesLine(Run([]).log, Owners([])) && !WriteAfterTear([]) && EndsOk(Run([]), Owners([]))
  {
  }

  function Piece(s: State, a: Action): string
    requires Effective(s, a)
  {
    Bytes(s.requests[a.r].stage.body)[s.requests[a.r].stage.sent..s.requests[a.r].stage.sent + a.count]
  }

  lemma WriteStep(s: State, a: Action, owners: seq<nat>)
    requires Effective(s, a)
    ensures Step(s, a).log == s.log + Piece(s, a) && |Piece(s, a)| == a.count > 0
  {
  }

  lemma QuietLog(s: State, a: Action)
    requires !Effective(s, a)
    ensures Step(s, a).log == s.log
  {
  }

  /** After a tear the next bytes are another request's. */
  lemma TornBefore(s: State, a: Action, owners: seq<nat>)
    requires EndsOk(s, owners) && s.spilled > 0 && Effective(s, a)
    ensures s.log != "" && |owners| == |s.log| && s.log[|s.log| - 1] != '\n' && owners[|s.log| - 1] != a.r
  {
  }

  // ── A torn append ──────────────────────────────────────────────────────

  ghost predicate Reachable(s: State) {
    exists actions :: Run(actions) == s
  }

  lemma Reach(s: State, a: Action)
    requires Reachable(s)
    ensures Reachable(Step(s, a))
  {
    hide Step, Run;
    var actions :| Run(actions) == s;
    RunSnoc(actions, a);
  }

  lemma InitialReachable()
    ensures Reachable(INITIAL)
  {
    EmptyRun();
  }

  /** Two requests at the given stages. */
  function Two(first: Stage, second: Stage, executed: bool, holder: Option<nat>, log: string, written: seq<Line>, spilled: nat): State {
    State([Request(true, first, false), Request(true, second, executed)], holder, log, written, spilled)
  }

  /** The first append stops after its first byte. */
  lemma TornReached()
    ensures Reachable(Two(Over, Waiting(Accepted, "b"), false, None, "a", [], 1))
  {
    hide Reachable;
    InitialReachable();
    Reach(INITIAL, Dispatch(true, "a"));
    var s1 := State([Request(true, Waiting(Accepted, "a"), false)], None, "", [], 0);
    assert s1 == Step(INITIAL, Dispatch(true, "a"));
    Reach(s1, Dispatch(true, "b"));
    var s2 := Two(Waiting(Accepted, "a"), Waiting(Accepted, "b"), false, None, "", [], 0);
    assert s2 == Step(s1, Dispatch(true, "b"));
    Reach(s2, Lock(0));
    var s3 := Two(Appending(Accepted, "a", 0), Waiting(Accepted, "b"), false, Some(0), "", [], 0);
    assert s3 == Step(s2, Lock(0));
    Reach(s3, Write(0, 1));
    assert "" + Bytes("a")[0..1] == "a";
    var s4 := Two(Appending(Accepted, "a", 1), Waiting(Accepted, "b"), false, Some(0), "a", [], 0);
    assert s4 == Step(s3, Write(0, 1));
    Reach(s4, AppendFails(0));
    assert Step(s4, AppendFails(0)) == Two(Over, Waiting(Accepted, "b"), false, None, "a", [], 1);
  }

  /** After a torn append two requests can share a line, and the second one is executed all the same. */
  lemma TornLinesMix()
    ensures exists actions :: MixedLine(Run(actions))
  {
    hide Run, LinesOf;
    TornReached();
    var s5 := Two(Over, Waiting(Accepted, "b"), false, None, "a", [], 1);
    Reach(s5, Lock(1));
    var s6 := Two(Over, Appending(Accepted, "b", 0), false, Some(1), "a", [], 1);
    assert s6 == Step(s5, Lock(1));
    Reach(s6, Write(1, 2));
    assert "a" + Bytes("b")[0..2] == "ab\n";
    var s7 := Two(Over, Appending(Accepted, "b", 2), false, Some(1), "ab\n", [Line(1, Accepted, "b")], 1);
    assert s7 == Step(s6, Write(1, 2));
    Reach(s7, AppendEnds(1));
    assert Step(s7, AppendEnds(1)) == Two(Over, Executing, true, None, "ab\n", [Line(1, Accepted, "b")], 1);
    LinesOfOne("ab", "");
    assert "ab" + "\n" == "ab\n" && "" + "ab" == "ab";
  }

  predicate MixedLine(s: State) {
    |s.requests| == 2 && s.requests[1].executed && s.written == [Line(1, Accepted, "b")] && LinesOf(s.log, "") == ["ab"]
  }
}
