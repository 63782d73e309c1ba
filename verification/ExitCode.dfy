/** Exit codes as the wrapper prints them and as status requests read them. */
module ExitCode {
  import opened Wrappers
  import opened Text

  function ExitText(status: nat): string {
    Numeral(status) + "\n"
  }

  const I32_MAX: int := 0x7FFF_FFFF

  /** Trimmed and read as a signed 32-bit number. */
  function ParseCode(text: string): Option<int> {
    var s := Trim(text);
    var digits := if s != "" && (s[0] == '-' || s[0] == '+') then s[1..] else s;
    if digits == "" || !All(digits, IsDigit) then None
    else
      var size: int := DigitsValue(digits);
      var v := if s[0] == '-' then -size else size;
      if -I32_MAX - 1 <= v <= I32_MAX then Some(v) else None
  }

  /** A text that is trimmed to a numeral reads as its number. */
  lemma ParseNumeral(text: string, n: nat)
    requires n <= I32_MAX && Trim(text) == Numeral(n)
    ensures ParseCode(text) == Some(n)
  {
    hide Trim, Numeral, DigitsValue;
    NumeralValue(n);
    assert IsDigit(Numeral(n)[0]);
  }

  lemma NumeralTrimmed(n: nat)
    ensures Trim(Numeral(n)) == Numeral(n) && Trim(Numeral(n) + "\n") == Numeral(n)
  {
    hide Numeral, StripStart, StripEnd;
    var s := Numeral(n);
    assert IsDigit(s[0]) && IsDigit(s[|s| - 1]);
    TrimFixed(s);
    assert "" + s + "\n" == s + "\n";
    StripUnique("", s, "\n", IsSpace);
  }

  /** A whole exit text is read back. */
  lemma ParseExitText(status: nat)
    requires status <= I32_MAX
    ensures ParseCode(ExitText(status)) == Some(status)
  {
    hide Trim, Numeral, ParseCode;
    NumeralTrimmed(status);
    ParseNumeral(ExitText(status), status);
  }

  // ── Exit texts cut short ───────────────────────────────────────────────

  /** The leading digits of a numeral are a smaller number's, and not zero. */
  lemma {:induction false} NumeralPrefix(n: nat, k: nat) returns (m: nat)
    requires 1 <= k < |Numeral(n)|
    ensures Numeral(n)[..k] == Numeral(m) && 0 < m < n
    decreases n
  {
    if k == |Numeral(n)| - 1 {
      m := n / 10;
    } else {
      assert Numeral(n)[..k] == Numeral(n / 10)[..k];
      m := NumeralPrefix(n / 10, k);
    }
  }

  /** What is read of the first `sent` bytes of an exit text. */
  function CodeRead(status: nat, sent: nat): Option<int>
    requires sent <= |ExitText(status)|
  {
    ParseCode(ExitText(status)[..sent])
  }

  /** All the digits are there, with or without the line feed. */
  predicate Complete(status: nat, sent: nat) {
    sent + 1 >= |ExitText(status)|
  }

  lemma ReadEmpty()
    ensures ParseCode("") == None
  {
    assert Trim("") == "";
  }

  /**
   A short write is unreadable exactly when it is empty, and tells the code
   exactly when it has all the digits; what it tells otherwise is lower, but
   never takes a failure for a success.
   */
  lemma CodeReadIs(status: nat, sent: nat)
    requires status <= I32_MAX && sent <= |ExitText(status)|
    ensures CodeRead(status, sent) == None <==> sent == 0
    ensures CodeRead(status, sent) == Some(status) <==> Complete(status, sent)
    ensures CodeRead(status, sent).Some? ==> var code := CodeRead(status, sent).value; 0 <= code <= status && (code == 0 <==> status == 0)
  {
    hide Trim, Numeral, ParseCode;
    var text, n := ExitText(status), Numeral(status);
    ReadEmpty();
    if sent == |text| {
      assert text[..sent] == text;
      ParseExitText(status);
    } else if sent == |n| {
      assert text[..sent] == n;
      NumeralTrimmed(status);
      ParseNumeral(n, status);
    } else if sent > 0 {
      assert text[..sent] == n[..sent];
      var m := NumeralPrefix(status, sent);
      NumeralTrimmed(m);
      ParseNumeral(n[..sent], m);
    }
  }

  /** Cut after its first digit, the text of status 10 tells 1. */
  lemma ShortWriteMisread()
    ensures |ExitText(10)| == 3 && CodeRead(10, 1) == Some(1)
  {
    hide Trim, ParseCode;
    assert ExitText(10) == "10\n" && Numeral(1) == "1";
    assert ExitText(10)[..1] == "1";
    NumeralTrimmed(1);
    ParseNumeral("1", 1);
  }
}
