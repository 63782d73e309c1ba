/**
 String primitives that the modelled code takes from its standard libraries:
 stripping, searching, joining, lower-casing and decimal numerals. Strings are
 sequences of Unicode scalar values.
 */
module Text {
  import opened Wrappers

  // ── Character classes ──────────────────────────────────────────────────

  /** The Unicode `White_Space` property, which `str::trim` strips. */
  predicate IsSpace(c: char) {
    var u := c as int;
    || 0x09 <= u <= 0x0D || u == 0x20 || u == 0x85 || u == 0xA0 || u == 0x1680
    || 0x2000 <= u <= 0x200A || u == 0x2028 || u == 0x2029 || u == 0x202F
    || u == 0x205F || u == 0x3000
  }

  predicate IsDigit(c: char) {
    '0' <= c <= '9'
  }

  predicate IsLetter(c: char) {
    'a' <= c <= 'z' || 'A' <= c <= 'Z'
  }

  function LowerChar(c: char): char {
    if 'A' <= c <= 'Z' then (c as int + 32) as char else c
  }

  /** ASCII lower-casing. */
  function Lower(s: string): (r: string)
    ensures |r| == |s| && forall i :: 0 <= i < |s| ==> r[i] == LowerChar(s[i])
  {
    seq(|s|, i requires 0 <= i < |s| => LowerChar(s[i]))
  }

  predicate All(s: string, p: char -> bool) {
    forall i :: 0 <= i < |s| ==> p(s[i])
  }

  /** The end of a concatenation that lies in its second part. */
  lemma TailOfAppend<T>(a: seq<T>, b: seq<T>, n: nat)
    requires n <= |b|
    ensures (a + b)[|a + b| - n..] == b[|b| - n..]
  {
  }

  lemma DropOfAppend<T>(a: seq<T>, b: seq<T>, n: nat)
    requires n <= |a|
    ensures (a + b)[n..] == a[n..] + b
  {
  }

  lemma Assoc<T>(a: seq<T>, b: seq<T>, c: seq<T>)
    ensures (a + b) + c == a + (b + c)
  {
  }

  // ── Stripping ──────────────────────────────────────────────────────────

  function StripStart(s: string, drop: char -> bool): string {
    if s != "" && drop(s[0]) then StripStart(s[1..], drop) else s
  }

  function StripEnd(s: string, drop: char -> bool): string {
    if s != "" && drop(s[|s| - 1]) then StripEnd(s[..|s| - 1], drop) else s
  }

  function Strip(s: string, drop: char -> bool): string {
    StripEnd(StripStart(s, drop), drop)
  }

  function Trim(s: string): string {
    Strip(s, IsSpace)
  }

  predicate Stripped(s: string, drop: char -> bool) {
    s != "" ==> !drop(s[0]) && !drop(s[|s| - 1])
  }

  predicate Trimmed(s: string) {
    Stripped(s, IsSpace)
  }

  /** A non-empty string with no surrounding white space. */
  predicate Solid(s: string) {
    s != "" && Trimmed(s)
  }

  lemma {:induction false} StripStartSplit(s: string, drop: char -> bool) returns (pre: string)
    ensures s == pre + StripStart(s, drop) && All(pre, drop)
    ensures var r := StripStart(s, drop); r != "" ==> !drop(r[0])
    decreases |s|
  {
    if s != "" && drop(s[0]) {
      var rest := StripStartSplit(s[1..], drop);
      pre := [s[0]] + rest;
      assert s == [s[0]] + s[1..];
    } else {
      pre := "";
    }
  }

  lemma {:induction false} StripEndSplit(s: string, drop: char -> bool) returns (suf: string)
    ensures s == StripEnd(s, drop) + suf && All(suf, drop)
    ensures var r := StripEnd(s, drop); r != "" ==> !drop(r[|r| - 1])
    decreases |s|
  {
    if s != "" && drop(s[|s| - 1]) {
      var rest := StripEndSplit(s[..|s| - 1], drop);
      suf := rest + [s[|s| - 1]];
      assert s == s[..|s| - 1] + [s[|s| - 1]];
    } else {
      suf := "";
    }
  }

  /** What stripping removes, and that the rest has no strippable end. */
  lemma StripSplit(s: string, drop: char -> bool) returns (pre: string, suf: string)
    ensures s == pre + Strip(s, drop) + suf
    ensures All(pre, drop) && All(suf, drop) && Stripped(Strip(s, drop), drop)
  {
    pre := StripStartSplit(s, drop);
    suf := StripEndSplit(StripStart(s, drop), drop);
  }

  lemma {:induction false} StripStartDrops(pre: string, t: string, drop: char -> bool)
    requires All(pre, drop) && (t != "" ==> !drop(t[0]))
    ensures StripStart(pre + t, drop) == t
    decreases |pre|
  {
    if pre == "" {
      assert pre + t == t;
    } else {
      assert (pre + t)[1..] == pre[1..] + t;
      StripStartDrops(pre[1..], t, drop);
    }
  }

  lemma {:induction false} StripEndDrops(t: string, suf: string, drop: char -> bool)
    requires All(suf, drop) && (t != "" ==> !drop(t[|t| - 1]))
    ensures StripEnd(t + suf, drop) == t
    decreases |suf|
  {
    if suf == "" {
      assert t + suf == t;
    } else {
      assert (t + suf)[..|t + suf| - 1] == t + suf[..|suf| - 1];
      StripEndDrops(t, suf[..|suf| - 1], drop);
    }
  }

  /** Stripping finds the one solid core between two strippable margins. */
  lemma StripUnique(pre: string, t: string, suf: string, drop: char -> bool)
    requires All(pre, drop) && All(suf, drop) && Stripped(t, drop)
    ensures Strip(pre + t + suf, drop) == t
  {
    if t == "" {
      assert pre + t + suf == (pre + suf) + "";
      StripStartDrops(pre + suf, "", drop);
    } else {
      assert pre + t + suf == pre + (t + suf);
      StripStartDrops(pre, t + suf, drop);
      StripEndDrops(t, suf, drop);
    }
  }

  lemma StripFixed(s: string, drop: char -> bool)
    requires Stripped(s, drop)
    ensures Strip(s, drop) == s
  {
    assert "" + s + "" == s;
    StripUnique("", s, "", drop);
  }

  lemma TrimFixed(s: string)
    requires Trimmed(s)
    ensures Trim(s) == s
  {
    StripFixed(s, IsSpace);
  }

  lemma TrimShorter(s: string)
    ensures |Trim(s)| <= |s|
  {
    var _, _ := StripSplit(s, IsSpace);
  }

  lemma TrimTrimmed(s: string)
    ensures Trimmed(Trim(s))
    ensures Trim(Trim(s)) == Trim(s)
  {
    var _, _ := StripSplit(s, IsSpace);
    TrimFixed(Trim(s));
  }

  // ── Searching ──────────────────────────────────────────────────────────

  predicate OccursAt(s: string, p: string, i: nat) {
    i + |p| <= |s| && s[i..i + |p|] == p
  }

  predicate Contains(s: string, p: string) {
    exists i: nat :: i <= |s| && OccursAt(s, p, i)
  }

  predicate StartsWith(s: string, p: string) {
    OccursAt(s, p, 0)
  }

  predicate EndsWith(s: string, p: string) {
    |p| <= |s| && OccursAt(s, p, |s| - |p|)
  }

  lemma StartsOtherwise(s: string, p: string)
    requires s != "" && p != "" && s[0] != p[0]
    ensures !StartsWith(s, p)
  {
    if |p| <= |s| { assert s[0..|p|][0] == s[0]; }
  }

  function FindFrom(s: string, p: string, from: nat): (r: Option<nat>)
    requires from <= |s|
    ensures r.Some? ==> from <= r.value && r.value + |p| <= |s| && OccursAt(s, p, r.value) && forall j: nat :: from <= j < r.value ==> !OccursAt(s, p, j)
    ensures r.None? ==> forall j: nat :: from <= j ==> !OccursAt(s, p, j)
    decreases |s| - from
  {
    if OccursAt(s, p, from) then Some(from)
    else if from == |s| then None
    else FindFrom(s, p, from + 1)
  }

  /** The first occurrence of `p` in `s`. */
  function Find(s: string, p: string): (r: Option<nat>)
    ensures r.Some? ==> r.value + |p| <= |s| && OccursAt(s, p, r.value) && forall j: nat :: j < r.value ==> !OccursAt(s, p, j)
    ensures r.None? ==> forall j: nat :: !OccursAt(s, p, j)
  {
    FindFrom(s, p, 0)
  }

  lemma FindIs(s: string, p: string, i: nat)
    requires OccursAt(s, p, i) && forall j: nat :: j < i ==> !OccursAt(s, p, j)
    ensures Find(s, p) == Some(i)
  {
  }

  function FindCharFrom(s: string, c: char, from: nat): (r: Option<nat>)
    requires from <= |s|
    ensures r.Some? ==> from <= r.value < |s| && s[r.value] == c && forall j :: from <= j < r.value ==> s[j] != c
    ensures r.None? ==> forall j :: from <= j < |s| ==> s[j] != c
    decreases |s| - from
  {
    if from == |s| then None
    else if s[from] == c then Some(from)
    else FindCharFrom(s, c, from + 1)
  }

  /** The first `c` in `s`. */
  function FindChar(s: string, c: char): (r: Option<nat>)
    ensures r.Some? ==> r.value < |s| && s[r.value] == c && forall j :: 0 <= j < r.value ==> s[j] != c
    ensures r.None? ==> forall j :: 0 <= j < |s| ==> s[j] != c
  {
    FindCharFrom(s, c, 0)
  }

  lemma FindCharIs(a: string, c: char, b: string)
    requires c !in a
    ensures FindChar(a + [c] + b, c) == Some(|a|)
  {
    var s := a + [c] + b;
    assert s[|a|] == c && forall j :: 0 <= j < |a| ==> s[j] == a[j];
  }

  /** `s` up to its first `c`, or all of it. */
  function UpTo(s: string, c: char): string {
    match FindChar(s, c)
    case Some(i) => s[..i]
    case None => s
  }

  // ── Joining ────────────────────────────────────────────────────────────

  function Join(parts: seq<string>, sep: string): string {
    if parts == [] then ""
    else if |parts| == 1 then parts[0]
    else parts[0] + sep + Join(parts[1..], sep)
  }

  lemma EndsWithAppend(a: string, b: string, p: string)
    requires EndsWith(b, p)
    ensures EndsWith(a + b, p)
  {
    TailOfAppend(a, b, |p|);
    assert b[|b| - |p|..|b|] == b[|b| - |p|..] && (a + b)[|a + b| - |p|..|a + b|] == (a + b)[|a + b| - |p|..];
  }

  /** A joined list starts like its first part and ends like its last. */
  lemma {:induction false} JoinEnds(parts: seq<string>, sep: string)
    requires parts != []
    ensures parts[0] <= Join(parts, sep)
    ensures EndsWith(Join(parts, sep), parts[|parts| - 1])
    decreases |parts|
  {
    if |parts| > 1 {
      JoinEnds(parts[1..], sep);
      var rest := Join(parts[1..], sep);
      var last := parts[|parts| - 1];
      assert last == parts[1..][|parts[1..]| - 1];
      assert Join(parts, sep) == (parts[0] + sep) + rest;
      EndsWithAppend(parts[0] + sep, rest, last);
    }
  }

  lemma JoinSolid(parts: seq<string>, sep: string)
    requires parts != [] && Solid(parts[0]) && Solid(parts[|parts| - 1])
    ensures Solid(Join(parts, sep))
  {
    JoinEnds(parts, sep);
    var all := Join(parts, sep);
    var last := parts[|parts| - 1];
    assert all[|all| - 1] == all[|all| - |last|..][|last| - 1];
  }

  // ── Decimal numerals ───────────────────────────────────────────────────

  function DigitChar(d: nat): (c: char)
    requires d < 10
    ensures IsDigit(c)
  {
    (d + '0' as int) as char
  }

  function Numeral(n: nat): (s: string)
    ensures s != "" && All(s, IsDigit)
    ensures n > 0 ==> s[0] != '0'
  {
    if n < 10 then [DigitChar(n)] else Numeral(n / 10) + [DigitChar(n % 10)]
  }

  function DigitsValue(s: string): nat
    requires All(s, IsDigit)
  {
    if s == "" then 0
    else 10 * DigitsValue(s[..|s| - 1]) + (s[|s| - 1] as int - '0' as int)
  }

  /** Decimal numerals read back as the number they print. */
  lemma {:induction false} NumeralValue(n: nat)
    ensures DigitsValue(Numeral(n)) == n
  {
    var s := Numeral(n);
    if n < 10 {
      assert s[..|s| - 1] == "";
    } else {
      NumeralValue(n / 10);
      assert s[..|s| - 1] == Numeral(n / 10);
    }
  }

  lemma NumeralInjective(m: nat, n: nat)
    requires Numeral(m) == Numeral(n)
    ensures m == n
  {
    NumeralValue(m);
    NumeralValue(n);
  }
}
