/**
 The agent's conversation history: one turn of the tool loop, trimming, and the
 shape every history keeps over whole runs.
 */
module AgentTurn {
  import opened Wrappers

  datatype ToolCall = ToolCall(id: string, name: string, arguments: string)

  datatype ParsedCall = ParsedCall(name: string, arguments: string, toolCallId: Option<string>)

  datatype ToolResult = ToolResult(toolCallId: string, content: string)

  datatype Message =
    | Chat(role: string, content: string)
    | AssistantToolCalls(text: Option<string>, toolCalls: seq<ToolCall>, reasoning: Option<string>)
    | ToolResults(results: seq<ToolResult>)

  datatype Response = Response(text: Option<string>, toolCalls: seq<ToolCall>, reasoning: Option<string>)

  /** The native dispatcher reads calls from the response, the XML one parses them out of its text. */
  datatype Dispatcher = Native | Xml(parse: string -> (string, seq<ParsedCall>))

  datatype Config = Config(maxHistory: nat, maxIterations: nat)

  function TextOrEmpty(text: Option<string>): string {
    if text.Some? then text.value else ""
  }

  // ── The dispatcher ─────────────────────────────────────────────────────

  function NativeCalls(calls: seq<ToolCall>): (r: seq<ParsedCall>)
    ensures |r| == |calls|
    ensures forall i :: 0 <= i < |calls| ==> r[i] == ParsedCall(calls[i].name, calls[i].arguments, Some(calls[i].id))
  {
    seq(|calls|, i requires 0 <= i < |calls| => ParsedCall(calls[i].name, calls[i].arguments, Some(calls[i].id)))
  }

  function ParseResponse(d: Dispatcher, r: Response): (string, seq<ParsedCall>) {
    match d
    case Native => (TextOrEmpty(r.text), NativeCalls(r.toolCalls))
    case Xml(parse) => parse(TextOrEmpty(r.text))
  }

  /** One result per call, in the order of the calls, whether run in turn or in parallel. */
  function Execute(run: ParsedCall -> string, calls: seq<ParsedCall>): (r: seq<string>)
    ensures |r| == |calls|
    ensures forall i :: 0 <= i < |calls| ==> r[i] == run(calls[i])
  {
    seq(|calls|, i requires 0 <= i < |calls| => run(calls[i]))
  }

  const RESULTS_HEADER: string := "[Tool results]\n"

  function XmlResult(name: string, output: string): string {
    "<tool_result name=\"" + name + "\" status=\"ok\">\n" + output + "\n</tool_result>\n"
  }

  function XmlResults(calls: seq<ParsedCall>, outputs: seq<string>): string
    requires |outputs| == |calls|
  {
    if calls == [] then ""
    else XmlResults(calls[..|calls| - 1], outputs[..|calls| - 1]) + XmlResult(calls[|calls| - 1].name, outputs[|calls| - 1])
  }

  function FormatResults(d: Dispatcher, calls: seq<ParsedCall>, outputs: seq<string>): Message
    requires |outputs| == |calls|
  {
    match d
    case Native =>
      ToolResults(seq(|calls|, i requires 0 <= i < |calls| =>
        ToolResult(if calls[i].toolCallId.Some? then calls[i].toolCallId.value else "unknown", outputs[i])))
    case Xml(_) => Chat("user", RESULTS_HEADER + XmlResults(calls, outputs))
  }

  // ── Trimming ───────────────────────────────────────────────────────────

  predicate IsSystem(m: Message) {
    m.Chat? && m.role == "system"
  }

  function Systems(h: seq<Message>): seq<Message> {
    if h == [] then []
    else Systems(h[..|h| - 1]) + if IsSystem(h[|h| - 1]) then [h[|h| - 1]] else []
  }

  function Others(h: seq<Message>): seq<Message> {
    if h == [] then []
    else Others(h[..|h| - 1]) + if IsSystem(h[|h| - 1]) then [] else [h[|h| - 1]]
  }

  /** Nothing below the limit; else all system messages and the last `max` others. */
  function Recent(h: seq<Message>, max: nat): seq<Message> {
    if |h| <= max then h else Systems(h) + LastOf(Others(h), max)
  }

  // ── One turn ───────────────────────────────────────────────────────────

  datatype Outcome = Answered(text: string) | Failed

  datatype Turned = Turned(history: seq<Message>, outcome: Outcome)

  /** What the surroundings do during a turn. */
  datatype World = World(
    systemPrompt: Option<string>,
    userContent: string,
    reply: nat -> Option<Response>,
    run: ParsedCall -> string)

  function AfterCalls(d: Dispatcher, w: World, h: seq<Message>, r: Response, max: nat): seq<Message> {
    var (text, calls) := ParseResponse(d, r);
    Recent(
      h + (if text == "" then [] else [Chat("assistant", text)])
        + [AssistantToolCalls(r.text, r.toolCalls, r.reasoning), FormatResults(d, calls, Execute(w.run, calls))],
      max)
  }

  /** The loop from iteration `i`: a failed request, a final answer, or one round of tool calls. */
  function Iterate(c: Config, d: Dispatcher, w: World, h: seq<Message>, i: nat): Turned
    requires i <= c.maxIterations
    decreases c.maxIterations - i
  {
    if i == c.maxIterations then Turned(h, Failed)
    else
      match w.reply(i)
      case None => Turned(h, Failed)
      case Some(r) =>
        var (text, calls) := ParseResponse(d, r);
        if calls == [] then
          var final := if text == "" then TextOrEmpty(r.text) else text;
          Turned(Recent(h + [Chat("assistant", final)], c.maxHistory), Answered(final))
        else Iterate(c, d, w, AfterCalls(d, w, h, r, c.maxHistory), i + 1)
  }

  function Turn(c: Config, d: Dispatcher, w: World, h: seq<Message>): Turned {
    if h == [] && w.systemPrompt.None? then Turned(h, Failed)
    else
      var started := if h == [] then [Chat("system", w.systemPrompt.value)] else h;
      Iterate(c, d, w, started + [Chat("user", w.userContent)], 0)
  }

  // ── The source's object ────────────────────────────────────────────────

  class Agent {
    const config: Config
    const dispatcher: Dispatcher
    var history: seq<Message>

    constructor (config: Config, dispatcher: Dispatcher)
      ensures this.config == config && this.dispatcher == dispatcher && history == []
    {
      this.config, this.dispatcher, history := config, dispatcher, [];
    }

    method ClearHistory()
      modifies this
      ensures history == []
    {
      history := [];
    }

    method TrimHistory()
      modifies this
      ensures history == Recent(old(history), config.maxHistory)
    {
      var max := config.maxHistory;
      if |history| <= max {
        return;
      }
      var systemMessages, otherMessages := [], [];
      for i := 0 to |history|
        invariant history == old(history)
        invariant systemMessages == Systems(history[..i]) && otherMessages == Others(history[..i])
      {
        assert history[..i + 1][..i] == history[..i];
        if IsSystem(history[i]) {
          systemMessages := systemMessages + [history[i]];
        } else {
          otherMessages := otherMessages + [history[i]];
        }
      }
      assert history[..|history|] == history;
      if |otherMessages| > max {
        otherMessages := otherMessages[|otherMessages| - max..];
      }
      history := systemMessages;
      history := history + otherMessages;
    }

    method RunTurn(w: World) returns (outcome: Outcome)
      modifies this
      ensures Turned(history, outcome) == Turn(config, dispatcher, w, old(history))
    {
      hide Recent, ParseResponse, FormatResults;
      if history == [] {
        if w.systemPrompt.None? {
          return Failed;
        }
        history := history + [Chat("system", w.systemPrompt.value)];
      }
      history := history + [Chat("user", w.userContent)];
      assert history == (if old(history) == [] then [Chat("system", w.systemPrompt.value)] else old(history))
        + [Chat("user", w.userContent)];
      for i := 0 to config.maxIterations
        invariant Turn(config, dispatcher, w, old(history)) == Iterate(config, dispatcher, w, history, i)
      {
        if w.reply(i).None? {
          return Failed;
        }
        var r := w.reply(i).value;
        ghost var before := history;
        var (text, calls) := ParseResponse(dispatcher, r);
        if calls == [] {
          var final := if text == "" then TextOrEmpty(r.text) else text;
          history := history + [Chat("assistant", final)];
          TrimHistory();
          return Answered(final);
        }
        if text != "" {
          history := history + [Chat("assistant", text)];
        }
        history := history + [AssistantToolCalls(r.text, r.toolCalls, r.reasoning)];
        var outputs := Execute(w.run, calls);
        history := history + [FormatResults(dispatcher, calls, outputs)];
        assert history == before + (if text == "" then [] else [Chat("assistant", text)])
          + [AssistantToolCalls(r.text, r.toolCalls, r.reasoning), FormatResults(dispatcher, calls, outputs)];
        TrimHistory();
      }
      outcome := Failed;
    }
  }

  // ── The shape of a history ─────────────────────────────────────────────

  /** `m` reports on the calls of `call`: id by id, or under the XML header. */
  predicate Answers(d: Dispatcher, call: Message, m: Message)
    requires call.AssistantToolCalls?
  {
    match d
    case Native =>
      && m.ToolResults? && |m.results| == |call.toolCalls|
      && forall i :: 0 <= i < |m.results| ==> m.results[i].toolCallId == call.toolCalls[i].id
    case Xml(_) => m.Chat? && m.role == "user" && RESULTS_HEADER <= m.content
  }

  /** No system message; every call is answered next; results stand alone only at the front. */
  predicate WellPaired(d: Dispatcher, s: seq<Message>) {
    && (forall i :: 0 <= i < |s| ==> !IsSystem(s[i]))
    && (forall i :: 0 <= i < |s| && s[i].AssistantToolCalls? ==> i + 1 < |s| && Answers(d, s[i], s[i + 1]))
    && (forall i :: 0 < i < |s| && s[i].ToolResults? ==> s[i - 1].AssistantToolCalls?)
  }

  /** Empty, or one system message followed by a well-paired conversation. */
  predicate Shaped(d: Dispatcher, h: seq<Message>) {
    h != [] ==> IsSystem(h[0]) && WellPaired(d, h[1..])
  }

  lemma {:induction false} FilterPlain(s: seq<Message>)
    requires forall i :: 0 <= i < |s| ==> !IsSystem(s[i])
    ensures Systems(s) == [] && Others(s) == s
    decreases |s|
  {
    if s != [] {
      FilterPlain(s[..|s| - 1]);
    }
  }

  lemma {:induction false} FilterHeaded(h: seq<Message>)
    requires h != [] && IsSystem(h[0]) && forall i :: 1 <= i < |h| ==> !IsSystem(h[i])
    ensures Systems(h) == [h[0]] && Others(h) == h[1..]
    decreases |h|
  {
    var init := h[..|h| - 1];
    if init == [] {
      assert Systems(init) == [] && Others(init) == [];
    } else {
      FilterHeaded(init);
      assert init[1..] + [h[|h| - 1]] == h[1..];
    }
  }

  /** A suffix of a well-paired conversation is well paired. */
  lemma SuffixPaired(d: Dispatcher, s: seq<Message>, k: nat)
    requires WellPaired(d, s) && k <= |s|
    ensures WellPaired(d, s[k..])
  {
    var t := s[k..];
    forall i | 0 <= i < |t| && t[i].AssistantToolCalls?
      ensures i + 1 < |t| && Answers(d, t[i], t[i + 1])
    {
      assert s[k + i].AssistantToolCalls?;
    }
    forall i | 0 < i < |t| && t[i].ToolResults?
      ensures t[i - 1].AssistantToolCalls?
    {
      assert s[k + i].ToolResults?;
    }
  }

  lemma ShortKept(h: seq<Message>, max: nat)
    requires |h| <= max
    ensures Recent(h, max) == h
  {
  }

  lemma TrimmedIs(d: Dispatcher, h: seq<Message>, max: nat)
    requires h != [] && Shaped(d, h) && |h| > max
    ensures Recent(h, max) == [h[0]] + LastOf(h[1..], max)
  {
    assert forall i :: 1 <= i < |h| ==> h[i] == h[1..][i - 1];
    FilterHeaded(h);
  }

  lemma TrimmedShaped(d: Dispatcher, h: seq<Message>, max: nat)
    requires h != [] && Shaped(d, h)
    ensures var t := Recent(h, max); t != [] && Shaped(d, t) && |t| <= max + 1 && |t| <= |h|
  {
    hide WellPaired, Recent, Answers;
    if |h| <= max {
      ShortKept(h, max);
    } else {
      var s, kept := h[1..], LastOf(h[1..], max);
      TrimmedIs(d, h, max);
      SuffixPaired(d, s, |s| - |kept|);
      assert s[|s| - |kept|..] == kept;
      assert ([h[0]] + kept)[1..] == kept;
    }
  }

  /** The history begins, after its system message, with results whose call is gone. */
  predicate StandsAlone(h: seq<Message>) {
    |h| > 1 && h[1].ToolResults?
  }

  /**
   Trimming leaves results without their call exactly when it keeps some
   message and cuts right before results, that is between a call and its answer
   or where they stood alone already.
   */
  lemma StandsAloneIff(d: Dispatcher, h: seq<Message>, max: nat)
    requires h != [] && Shaped(d, h) && |h| > max
    ensures var first := |h| - (if |h| - 1 <= max then |h| - 1 else max);
      && (StandsAlone(Recent(h, max)) <==> 0 < max && first < |h| && h[first].ToolResults?)
      && (StandsAlone(Recent(h, max)) ==> first == 1 || h[first - 1].AssistantToolCalls?)
  {
    hide Recent, Answers;
    TrimmedIs(d, h, max);
    var s, kept := h[1..], LastOf(h[1..], max);
    var first := |h| - (if |h| - 1 <= max then |h| - 1 else max);
    if kept != [] {
      assert kept[0] == s[|s| - |kept|] == h[first];
      if first > 1 && h[first].ToolResults? {
        assert s[first - 1].ToolResults? && s[first - 2] == h[first - 1];
      }
    }
  }

  /** Appending messages that are neither calls nor results. */
  lemma ChatAppended(d: Dispatcher, h: seq<Message>, role: string, content: string)
    requires h != [] && Shaped(d, h) && role != "system"
    ensures Shaped(d, h + [Chat(role, content)])
  {
    var t := h[1..] + [Chat(role, content)];
    assert (h + [Chat(role, content)])[1..] == t;
    forall i | 0 <= i < |t| && t[i].AssistantToolCalls?
      ensures i + 1 < |t| && Answers(d, t[i], t[i + 1])
    {
      assert h[1..][i].AssistantToolCalls?;
    }
  }

  lemma RoundAppended(d: Dispatcher, h: seq<Message>, call: Message, m: Message)
    requires h != [] && Shaped(d, h) && call.AssistantToolCalls? && Answers(d, call, m) && !IsSystem(m)
    ensures Shaped(d, h + [call, m])
  {
    var s, t := h[1..], h[1..] + [call, m];
    assert (h + [call, m])[1..] == t;
    forall i | 0 <= i < |t| && t[i].AssistantToolCalls?
      ensures i + 1 < |t| && Answers(d, t[i], t[i + 1])
    {
      if i < |s| { assert s[i].AssistantToolCalls?; }
    }
    forall i | 0 < i < |t| && t[i].ToolResults?
      ensures t[i - 1].AssistantToolCalls?
    {
      if i < |s| { assert s[i].ToolResults?; }
    }
  }

  lemma ResultsAnswer(d: Dispatcher, r: Response, run: ParsedCall -> string)
    ensures var calls := ParseResponse(d, r).1;
      var m := FormatResults(d, calls, Execute(run, calls));
      Answers(d, AssistantToolCalls(r.text, r.toolCalls, r.reasoning), m) && !IsSystem(m)
  {
  }

  lemma AfterCallsShaped(d: Dispatcher, w: World, h: seq<Message>, r: Response, max: nat)
    requires h != [] && Shaped(d, h)
    ensures var t := AfterCalls(d, w, h, r, max); t != [] && Shaped(d, t) && |t| <= max + 1
  {
    hide Recent, ParseResponse, FormatResults, Shaped, Answers;
    var (text, calls) := ParseResponse(d, r);
    var said := h + if text == "" then [] else [Chat("assistant", text)];
    if text == "" {
      assert said == h;
    } else {
      ChatAppended(d, h, "assistant", text);
    }
    ResultsAnswer(d, r, w.run);
    var call, m := AssistantToolCalls(r.text, r.toolCalls, r.reasoning), FormatResults(d, calls, Execute(w.run, calls));
    RoundAppended(d, said, call, m);
    TrimmedShaped(d, said + [call, m], max);
  }

  lemma {:induction false} IterateShaped(c: Config, d: Dispatcher, w: World, h: seq<Message>, i: nat)
    requires i <= c.maxIterations && h != [] && Shaped(d, h)
    ensures var t := Iterate(c, d, w, h, i);
      && t.history != [] && Shaped(d, t.history)
      && (t.outcome.Answered? ==> |t.history| <= c.maxHistory + 1)
      && (t.outcome.Failed? ==> t.history == h || |t.history| <= c.maxHistory + 1)
    decreases c.maxIterations - i
  {
    hide Recent, ParseResponse, Shaped, AfterCalls;
    if i < c.maxIterations && w.reply(i).Some? {
      var r := w.reply(i).value;
      var (text, calls) := ParseResponse(d, r);
      if calls == [] {
        var final := if text == "" then TextOrEmpty(r.text) else text;
        ChatAppended(d, h, "assistant", final);
        TrimmedShaped(d, h + [Chat("assistant", final)], c.maxHistory);
      } else {
        AfterCallsShaped(d, w, h, r, c.maxHistory);
        IterateShaped(c, d, w, AfterCalls(d, w, h, r, c.maxHistory), i + 1);
      }
    }
  }

  lemma SystemOnly(d: Dispatcher, prompt: string)
    ensures Shaped(d, [Chat("system", prompt)])
  {
  }

  /** One turn keeps the shape; a turn that answers leaves at most one message over the limit. */
  lemma TurnShaped(c: Config, d: Dispatcher, w: World, h: seq<Message>)
    requires Shaped(d, h)
    ensures var t := Turn(c, d, w, h);
      && Shaped(d, t.history)
      && (t.outcome.Answered? ==> t.history != [] && |t.history| <= c.maxHistory + 1)
      && (t.outcome.Failed? ==> |t.history| <= (if |h| <= c.maxHistory + 1 then c.maxHistory + 1 else |h|) + 1)
  {
    hide Iterate, Shaped;
    if h != [] || w.systemPrompt.Some? {
      var started := if h == [] then [Chat("system", w.systemPrompt.value)] else h;
      if h == [] { SystemOnly(d, w.systemPrompt.value); }
      ChatAppended(d, started, "user", w.userContent);
      IterateShaped(c, d, w, started + [Chat("user", w.userContent)], 0);
    }
  }

  // ── Whole runs ─────────────────────────────────────────────────────────

  datatype Event = Turning(world: World) | Clearing

  /** The history, and how many turns failed since one last answered or the history was cleared. */
  datatype Session = Session(history: seq<Message>, failures: nat)

  function Next(c: Config, d: Dispatcher, s: Session, e: Event): Session {
    match e
    case Clearing => Session([], 0)
    case Turning(w) =>
      var t := Turn(c, d, w, s.history);
      Session(t.history, if t.outcome.Answered? then 0 else s.failures + 1)
  }

  function Run(c: Config, d: Dispatcher, events: seq<Event>): Session {
    if events == [] then Session([], 0)
    else Next(c, d, Run(c, d, events[..|events| - 1]), events[|events| - 1])
  }

  /**
   Over every run from an empty history, with any replies, failures and clears:
   the history keeps its shape, and it exceeds the limit by at most one message
   and one more for each turn that has failed since the last answer.
   */
  lemma {:induction false} RunShaped(c: Config, d: Dispatcher, events: seq<Event>)
    ensures var s := Run(c, d, events);
      Shaped(d, s.history) && |s.history| <= c.maxHistory + 1 + s.failures
    decreases |events|
  {
    hide Turn;
    if events != [] {
      var before, e := Run(c, d, events[..|events| - 1]), events[|events| - 1];
      RunShaped(c, d, events[..|events| - 1]);
      if e.Turning? {
        TurnShaped(c, d, e.world, before.history);
      }
    }
  }

  // ── Exactly when the limit is exceeded ─────────────────────────────────

  /** The turn is over before any message could be trimmed. */
  predicate FirstFails(c: Config, w: World) {
    c.maxIterations == 0 || w.reply(0).None?
  }

  /** What the turn starts from, its system message included. */
  function StartLength(h: seq<Message>): nat {
    if h == [] then 1 else |h|
  }

  /** A turn that ends at its first request, on a history already at its limit. */
  predicate Overflows(c: Config, w: World, h: seq<Message>) {
    FirstFails(c, w) && (h != [] || w.systemPrompt.Some?) && StartLength(h) > c.maxHistory
  }

  /** Once a first reply has come, the history is trimmed before the turn can end. */
  lemma RepliedWithin(c: Config, d: Dispatcher, w: World, h: seq<Message>)
    requires !FirstFails(c, w) && h != [] && Shaped(d, h)
    ensures |Iterate(c, d, w, h, 0).history| <= c.maxHistory + 1
  {
    hide Recent, ParseResponse, Shaped, AfterCalls;
    var r := w.reply(0).value;
    var (text, calls) := ParseResponse(d, r);
    if calls == [] {
      var final := if text == "" then TextOrEmpty(r.text) else text;
      ChatAppended(d, h, "assistant", final);
      TrimmedShaped(d, h + [Chat("assistant", final)], c.maxHistory);
    } else {
      AfterCallsShaped(d, w, h, r, c.maxHistory);
      IterateShaped(c, d, w, AfterCalls(d, w, h, r, c.maxHistory), 1);
    }
  }

  lemma FirstFailed(c: Config, d: Dispatcher, w: World, h: seq<Message>)
    requires FirstFails(c, w)
    ensures Iterate(c, d, w, h, 0) == Turned(h, Failed)
  {
  }

  /** A turn leaves more than one message over the limit exactly when it overflows. */
  lemma TurnOverIff(c: Config, d: Dispatcher, w: World, h: seq<Message>)
    requires Shaped(d, h)
    ensures |Turn(c, d, w, h).history| > c.maxHistory + 1 <==> Overflows(c, w, h)
    ensures Overflows(c, w, h) ==> |Turn(c, d, w, h).history| == StartLength(h) + 1
  {
    hide Iterate, Shaped, FirstFails;
    if h != [] || w.systemPrompt.Some? {
      var started := if h == [] then [Chat("system", w.systemPrompt.value)] else h;
      if h == [] { SystemOnly(d, w.systemPrompt.value); }
      ChatAppended(d, started, "user", w.userContent);
      var asked := started + [Chat("user", w.userContent)];
      if FirstFails(c, w) {
        FirstFailed(c, d, w, asked);
      } else {
        RepliedWithin(c, d, w, asked);
      }
    }
  }

  /** And so does a run exactly when its last event is such a turn. */
  lemma RunOverIff(c: Config, d: Dispatcher, events: seq<Event>)
    ensures |Run(c, d, events).history| > c.maxHistory + 1 <==>
      events != [] && events[|events| - 1].Turning?
      && Overflows(c, events[|events| - 1].world, Run(c, d, events[..|events| - 1]).history)
  {
    hide Turn, Shaped, Overflows;
    if events != [] {
      var init, e := events[..|events| - 1], events[|events| - 1];
      RunShaped(c, d, init);
      if e.Turning? {
        TurnOverIff(c, d, e.world, Run(c, d, init).history);
      }
    }
  }

  /** A turn whose first request fails, on a history that has started. */
  lemma FailedTurnGrows(c: Config, d: Dispatcher, w: World, h: seq<Message>)
    requires h != [] && c.maxIterations > 0 && w.reply(0).None?
    ensures Turn(c, d, w, h) == Turned(h + [Chat("user", w.userContent)], Failed)
  {
  }

  /** Nothing is trimmed before a reply: with every request failing, the history grows by one message a turn, past any limit. */
  lemma {:induction false} FailuresUnbounded(c: Config, d: Dispatcher, w: World, n: nat)
    requires c.maxIterations > 0 && w.reply(0).None? && w.systemPrompt.Some?
    ensures var s := Run(c, d, seq(n, _ => Turning(w)));
      s.failures == n && |s.history| == if n == 0 then 0 else n + 1
    decreases n
  {
    var events := seq(n, _ => Turning(w));
    if n > 0 {
      FailuresUnbounded(c, d, w, n - 1);
      assert events[..n - 1] == seq(n - 1, _ => Turning(w));
      var h := Run(c, d, events[..n - 1]).history;
      if h == [] {
        var started := [Chat("system", w.systemPrompt.value)];
        FailedTurnGrows(c, d, w, started);
      } else {
        FailedTurnGrows(c, d, w, h);
      }
    }
  }
}
