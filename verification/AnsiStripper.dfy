/** Removing terminal escape sequences from log text. */
module AnsiStripper {
  import opened Text

  const ESC: char := '\U{001B}'
  const BEL: char := '\U{0007}'

  /** The final bytes of a control sequence. */
  predicate IsFinal(c: char) {
    '@' <= c <= '~'
  }

  /** What is left after the body of a control sequence, up to its final byte. */
  function AfterCsi(s: string): (r: string)
    ensures |r| <= |s|
  {
    if s == "" then ""
    else if IsFinal(s[0]) then s[1..]
    else AfterCsi(s[1..])
  }

  /** What is left after an operating-system command, ended by BEL or ESC backslash. */
  function AfterOsc(s: string): (r: string)
    ensures |r| <= |s|
  {
    if s == "" then ""
    else if s[0] == BEL then s[1..]
    else if s[0] == ESC && |s| > 1 && s[1] == '\\' then s[2..]
    else AfterOsc(s[1..])
  }

  function Strip(s: string): string
    decreases |s|
  {
    if s == "" then ""
    else if s[0] != ESC then [s[0]] + Strip(s[1..])
    else if |s| > 1 && s[1] == '[' then Strip(AfterCsi(s[2..]))
    else if |s| > 1 && s[1] == ']' then Strip(AfterOsc(s[2..]))
    else Strip(s[1..])
  }

  lemma StripPlainChar(s: string)
    requires s != "" && s[0] != ESC
    ensures Strip(s) == [s[0]] + Strip(s[1..])
  {
  }

  lemma StripIntroduced(s: string)
    requires |s| > 1 && s[0] == ESC
    ensures s[1] == '[' ==> Strip(s) == Strip(AfterCsi(s[2..]))
    ensures s[1] == ']' ==> Strip(s) == Strip(AfterOsc(s[2..]))
  {
  }

  lemma StripLone(s: string)
    requires s != "" && s[0] == ESC && (|s| > 1 ==> s[1] != '[' && s[1] != ']')
    ensures Strip(s) == Strip(s[1..])
  {
  }

  lemma CsiStep(s: string)
    ensures s == "" ==> AfterCsi(s) == ""
    ensures s != "" ==> AfterCsi(s) == if IsFinal(s[0]) then s[1..] else AfterCsi(s[1..])
  {
  }

  lemma OscStep(s: string)
    ensures s == "" ==> AfterOsc(s) == ""
    ensures s != "" && s[0] == BEL ==> AfterOsc(s) == s[1..]
    ensures |s| > 1 && s[0] == ESC && s[1] == '\\' ==> AfterOsc(s) == s[2..]
    ensures s != "" && s[0] != BEL && !(|s| > 1 && s[0] == ESC && s[1] == '\\') ==> AfterOsc(s) == AfterOsc(s[1..])
  {
  }

  lemma StripEmpty()
    ensures Strip("") == ""
  {
  }

  method StripAnsiSequences(input: string) returns (output: string)
    ensures output == Strip(input)
  {
    hide Strip, AfterCsi, AfterOsc, IsFinal;
    output := "";
    var i := 0;
    assert input[0..] == input && "" + Strip(input) == Strip(input);
    while i < |input|
      invariant i <= |input|
      invariant Strip(input) == output + Strip(input[i..])
    {
      ghost var rest := input[i..];
      var ch := input[i];
      i := i + 1;
      assert input[i..] == rest[1..];
      if ch != ESC {
        StripPlainChar(rest);
        Assoc(output, [ch], Strip(input[i..]));
        output := output + [ch];
        continue;
      }
      if i < |input| && input[i] == '[' {
        i := i + 1;
        StripIntroduced(rest);
        assert input[i..] == rest[2..];
        ghost var body := input[i..];
        var done := false;
        while i < |input| && !done
          invariant i <= |input|
          invariant AfterCsi(body) == if done then input[i..] else AfterCsi(input[i..])
          decreases |input| - i
        {
          CsiStep(input[i..]);
          done := IsFinal(input[i]);
          assert input[i..][1..] == input[i + 1..];
          i := i + 1;
        }
        CsiStep(input[i..]);
        assert input[i..] == AfterCsi(body);
      } else if i < |input| && input[i] == ']' {
        i := i + 1;
        StripIntroduced(rest);
        assert input[i..] == rest[2..];
        ghost var body := input[i..];
        var done := false;
        while i < |input| && !done
          invariant i <= |input|
          invariant AfterOsc(body) == if done then input[i..] else AfterOsc(input[i..])
          decreases |input| - i
        {
          OscStep(input[i..]);
          var next := input[i];
          assert input[i..][1..] == input[i + 1..];
          i := i + 1;
          if next == BEL {
            done := true;
          } else if next == ESC && i < |input| && input[i] == '\\' {
            assert input[i - 1..][2..] == input[i + 1..];
            i := i + 1;
            done := true;
          }
        }
        OscStep(input[i..]);
        assert input[i..] == AfterOsc(body);
      } else {
        StripLone(rest);
      }
    }
    StripEmpty();
    assert input[i..] == "";
  }

  // ── Escape sequences by their grammar ──────────────────────────────────

  datatype Token =
    | Plain(text: string)
    | Control(body: string, final: char)
    | Command(body: string, bell: bool)

  /** A body no part of which ends an operating-system command. */
  predicate CommandBody(body: string) {
    && BEL !in body
    && forall i :: 0 <= i < |body| - 1 ==> !(body[i] == ESC && body[i + 1] == '\\')
  }

  predicate ValidToken(t: Token) {
    match t
    case Plain(text) => ESC !in text
    case Control(body, final) => All(body, c => !IsFinal(c)) && IsFinal(final)
    case Command(body, _) => CommandBody(body)
  }

  /** Section 5.4 of ECMA-48: parameter bytes, then intermediate bytes, then a final byte. */
  predicate ControlSequence(parameters: string, intermediates: string, final: char) {
    && All(parameters, c => '0' <= c <= '?')
    && All(intermediates, c => ' ' <= c <= '/')
    && IsFinal(final)
  }

  lemma ControlSequenceValid(parameters: string, intermediates: string, final: char)
    requires ControlSequence(parameters, intermediates, final)
    ensures ValidToken(Control(parameters + intermediates, final))
  {
    var body := parameters + intermediates;
    forall i | 0 <= i < |body|
      ensures !IsFinal(body[i])
    {
      if i < |parameters| {
        assert '0' <= parameters[i] <= '?';
      } else {
        assert ' ' <= intermediates[i - |parameters|] <= '/';
      }
    }
  }

  function Render(t: Token): string {
    match t
    case Plain(text) => text
    case Control(body, final) => [ESC, '['] + body + [final]
    case Command(body, bell) => [ESC, ']'] + body + (if bell then [BEL] else [ESC, '\\'])
  }

  function RenderAll(ts: seq<Token>): string {
    if ts == [] then "" else Render(ts[0]) + RenderAll(ts[1..])
  }

  function TextOf(ts: seq<Token>): string {
    if ts == [] then "" else (if ts[0].Plain? then ts[0].text else "") + TextOf(ts[1..])
  }

  lemma {:induction false} AfterCsiToken(body: string, final: char, rest: string)
    requires All(body, c => !IsFinal(c)) && IsFinal(final)
    ensures AfterCsi(body + [final] + rest) == rest
    decreases |body|
  {
    var s := body + [final] + rest;
    if body == "" {
      assert s[1..] == rest;
    } else {
      assert s[0] == body[0] && s[1..] == body[1..] + [final] + rest;
      AfterCsiToken(body[1..], final, rest);
    }
  }

  lemma {:induction false} AfterOscToken(body: string, bell: bool, rest: string)
    requires CommandBody(body)
    ensures AfterOsc(body + (if bell then [BEL] else [ESC, '\\']) + rest) == rest
    decreases |body|
  {
    var end := if bell then [BEL] else [ESC, '\\'];
    var s := body + end + rest;
    if body == "" {
      assert s == end + rest;
      assert s[|end|..] == rest;
    } else {
      assert s[0] == body[0] && s[1..] == body[1..] + end + rest;
      assert s[1] == if |body| > 1 then body[1] else end[0];
      AfterOscToken(body[1..], bell, rest);
    }
  }

  lemma {:induction false} StripPlain(text: string, rest: string)
    requires ESC !in text
    ensures Strip(text + rest) == text + Strip(rest)
    decreases |text|
  {
    if text == "" {
      assert text + rest == rest;
    } else {
      assert (text + rest)[1..] == text[1..] + rest;
      StripPlain(text[1..], rest);
      Assoc([text[0]], text[1..], Strip(rest));
      assert [text[0]] + text[1..] == text;
    }
  }

  lemma StripEscape(intro: char, body: string, rest: string)
    requires intro == '[' || intro == ']'
    ensures Strip([ESC, intro] + body + rest) ==
      Strip(if intro == '[' then AfterCsi(body + rest) else AfterOsc(body + rest))
  {
    var s := [ESC, intro] + body + rest;
    assert s[2..] == body + rest;
  }

  /** Stripping a rendered token sequence leaves exactly its text. */
  lemma {:induction false} StripTokens(ts: seq<Token>)
    requires forall i :: 0 <= i < |ts| ==> ValidToken(ts[i])
    ensures Strip(RenderAll(ts)) == TextOf(ts)
    decreases |ts|
  {
    if ts != [] {
      StripTokens(ts[1..]);
      var rest := RenderAll(ts[1..]);
      match ts[0] {
        case Plain(text) =>
          StripPlain(text, rest);
        case Control(body, final) =>
          assert Render(ts[0]) == [ESC, '['] + (body + [final]);
          StripEscape('[', body + [final], rest);
          AfterCsiToken(body, final, rest);
        case Command(body, bell) =>
          var end := if bell then [BEL] else [ESC, '\\'];
          assert Render(ts[0]) == [ESC, ']'] + (body + end);
          StripEscape(']', body + end, rest);
          AfterOscToken(body, bell, rest);
      }
    }
  }

  /** Whatever the input, no escape character is left, so stripping again changes nothing. */
  lemma {:induction false} StripClean(s: string)
    ensures ESC !in Strip(s)
    ensures Strip(Strip(s)) == Strip(s)
    decreases |s|
  {
    if s != "" {
      if s[0] != ESC {
        StripClean(s[1..]);
      } else if |s| > 1 && s[1] == '[' {
        StripClean(AfterCsi(s[2..]));
      } else if |s| > 1 && s[1] == ']' {
        StripClean(AfterOsc(s[2..]));
      } else {
        StripClean(s[1..]);
      }
      StripPlain(Strip(s), "");
      assert Strip(s) + "" == Strip(s);
    }
  }
}
