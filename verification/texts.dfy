/** The string operations the agent takes from Go's strings, strconv and fmt packages, on ASCII text. */
module Texts {

  function Lower(c: char): (l: char)
    ensures 'A' <= c <= 'Z' ==> 'a' <= l <= 'z' && l as int - 'a' as int == c as int - 'A' as int
    ensures !('A' <= c <= 'Z') ==> l == c
  {
    if 'A' <= c <= 'Z' then (c as int + 32) as char else c
  }

  /** strings.ToLower */
  function ToLower(s: string): (r: string)
    ensures |r| == |s| && forall i :: 0 <= i < |s| ==> r[i] == Lower(s[i])
  {
    seq(|s|, i requires 0 <= i < |s| => Lower(s[i]))
  }

  predicate IsSpace(c: char) {
    c == ' ' || '\t' <= c <= '\r'
  }

  /** strings.TrimSpace */
  function TrimSpace(s: string): string {
    TrimRight(TrimLeft(s))
  }

  function TrimLeft(s: string): string {
    if s != "" && IsSpace(s[0]) then TrimLeft(s[1..]) else s
  }

  function TrimRight(s: string): string {
    if s != "" && IsSpace(s[|s| - 1]) then TrimRight(s[..|s| - 1]) else s
  }

  /** strings.TrimSuffix(s, ".") */
  function TrimDot(s: string): string {
    if s != "" && s[|s| - 1] == '.' then s[..|s| - 1] else s
  }

  /** strings.HasSuffix */
  predicate HasSuffix(s: string, suffix: string) {
    |suffix| <= |s| && s[|s| - |suffix|..] == suffix
  }

  predicate IsDigit(c: char) {
    '0' <= c <= '9'
  }

  /** %d of a natural number */
  function Digits(n: nat): (s: string)
    ensures s != "" && forall i :: 0 <= i < |s| ==> IsDigit(s[i])
  {
    if n < 10 then [('0' as int + n) as char] else Digits(n / 10) + [('0' as int + n % 10) as char]
  }

  /** strconv.Itoa */
  function Itoa(i: int): string {
    if i < 0 then "-" + Digits(-i) else Digits(i)
  }

  // ---------------------------------------------------------------- what trimming leaves

  /** Blank, tab, line feed, vertical tab, form feed or carriage return. */
  predicate IsBlank(c: char) {
    c == ' ' || c == '\t' || c == '\n' || c as int == 11 || c as int == 12 || c == '\r'
  }

  predicate AllBlank(s: string) {
    forall i :: 0 <= i < |s| ==> IsBlank(s[i])
  }

  /** A text that neither starts nor ends with a blank. */
  predicate IsCore(s: string) {
    s != "" && !IsBlank(s[0]) && !IsBlank(s[|s| - 1])
  }

  lemma {:induction false} TrimLeftDropsBlanks(before: string, s: string)
    requires AllBlank(before) && (s == "" || !IsBlank(s[0]))
    ensures TrimLeft(before + s) == s
  {
    if before != "" {
      assert (before + s)[1..] == before[1..] + s;
      TrimLeftDropsBlanks(before[1..], s);
    } else {
      assert before + s == s;
    }
  }

  lemma {:induction false} TrimRightDropsBlanks(s: string, after: string)
    requires AllBlank(after) && (s == "" || !IsBlank(s[|s| - 1]))
    ensures TrimRight(s + after) == s
  {
    if after != "" {
      var init := after[..|after| - 1];
      assert (s + after)[..|s + after| - 1] == s + init;
      TrimRightDropsBlanks(s, init);
    } else {
      assert s + after == s;
    }
  }

  /** Trimming leaves exactly the core between the blanks. */
  lemma TrimSpaceIsTheCore(before: string, core: string, after: string)
    requires AllBlank(before) && AllBlank(after) && IsCore(core)
    ensures TrimSpace(before + core + after) == core
  {
    assert before + core + after == before + (core + after);
    TrimLeftDropsBlanks(before, core + after);
    TrimRightDropsBlanks(core, after);
  }

  lemma {:induction false} BlankTrimsToNothing(s: string)
    requires AllBlank(s)
    ensures TrimSpace(s) == ""
  {
    assert s + "" == s;
    TrimLeftDropsBlanks(s, "");
  }

  lemma {:induction false} LeftCoreExists(s: string) returns (before: string, rest: string)
    ensures s == before + rest && AllBlank(before) && (rest == "" || !IsBlank(rest[0]))
  {
    if s != "" && IsBlank(s[0]) {
      before, rest := LeftCoreExists(s[1..]);
      before := [s[0]] + before;
    } else {
      before, rest := "", s;
    }
  }

  lemma {:induction false} RightCoreExists(s: string) returns (rest: string, after: string)
    ensures s == rest + after && AllBlank(after) && (rest == "" || !IsBlank(rest[|rest| - 1]))
  {
    if s != "" && IsBlank(s[|s| - 1]) {
      rest, after := RightCoreExists(s[..|s| - 1]);
      after := after + [s[|s| - 1]];
    } else {
      rest, after := s, "";
    }
  }

  /** Every text is blank, or blanks around one core, which is what trimming leaves. */
  lemma TrimSpaceSplits(s: string) returns (before: string, core: string, after: string)
    ensures s == before + core + after && AllBlank(before) && AllBlank(after)
    ensures core == TrimSpace(s) && (core == "" || IsCore(core))
  {
    var rest;
    before, rest := LeftCoreExists(s);
    core, after := RightCoreExists(rest);
    if core == "" {
      assert s == before + after;
      BlankTrimsToNothing(s);
    } else {
      assert core[0] == rest[0];
      TrimSpaceIsTheCore(before, core, after);
      assert s == before + core + after;
    }
  }

  /** The text in some letter case, with blanks around it. */
  ghost predicate Reads(raw: string, text: string) {
    exists before, core, after ::
      raw == before + core + after && AllBlank(before) && AllBlank(after) && ToLower(core) == text
  }

  lemma ReadsIff(raw: string, text: string)
    requires text == "" || IsCore(text)
    ensures Reads(raw, text) <==> ToLower(TrimSpace(raw)) == text
  {
    var before, core, after := TrimSpaceSplits(raw);
    if Reads(raw, text) {
      var b, c, a :| raw == b + c + a && AllBlank(b) && AllBlank(a) && ToLower(c) == text;
      if text == "" {
        assert |c| == |ToLower(c)| == 0;
        BlankTrimsToNothing(raw);
      } else {
        assert |c| == |text| && Lower(c[0]) == text[0] && Lower(c[|c| - 1]) == text[|c| - 1];
        TrimSpaceIsTheCore(b, c, a);
      }
    }
  }

  /** The decimal numeral of a natural number: digits, no leading zero, the right value. */
  ghost predicate IsNumeral(s: string, n: nat) {
    && s != "" && (forall i :: 0 <= i < |s| ==> '0' <= s[i] <= '9') && (|s| > 1 ==> s[0] != '0')
    && ValueOf(s) == n
  }

  lemma {:induction false} DigitsIsNumeral(n: nat)
    ensures IsNumeral(Digits(n), n)
  {
    DigitsRoundTrip(n);
    NoLeadingZero(n);
  }

  lemma {:induction false} NoLeadingZero(n: nat)
    ensures |Digits(n)| > 1 ==> Digits(n)[0] != '0'
    ensures n > 0 ==> Digits(n)[0] != '0'
  {
    if n >= 10 {
      NoLeadingZero(n / 10);
    }
  }

  lemma TrimDotDropsOneDot(s: string)
    ensures TrimDot(s + ".") == s
    ensures s == "" || s[|s| - 1] != '.' ==> TrimDot(s) == s
  {
  }

  function ValueOf(s: string): int {
    if s == "" then 0 else 10 * ValueOf(s[..|s| - 1]) + (s[|s| - 1] as int - '0' as int)
  }

  lemma {:induction false} DigitsRoundTrip(n: nat)
    ensures ValueOf(Digits(n)) == n
  {
    var s := Digits(n);
    if n < 10 {
      assert s[..0] == "";
      assert ValueOf(s[..0]) == 0;
    } else {
      DigitsRoundTrip(n / 10);
      assert s[..|s| - 1] == Digits(n / 10);
    }
  }

  lemma DigitsInjective(m: nat, n: nat)
    requires Digits(m) == Digits(n)
    ensures m == n
  {
    DigitsRoundTrip(m);
    DigitsRoundTrip(n);
  }

  lemma ItoaInjective(i: int, j: int)
    requires Itoa(i) == Itoa(j)
    ensures i == j
  {
    assert Itoa(i)[0] == '-' <==> i < 0;
    assert Itoa(j)[0] == '-' <==> j < 0;
    if i < 0 {
      assert Itoa(i)[1..] == Digits(-i) && Itoa(j)[1..] == Digits(-j);
      DigitsInjective(-i, -j);
    } else {
      DigitsInjective(i, j);
    }
  }

  /** Text splits in only one way around its last separator. */
  lemma LastSeparator(a: string, b: string, a': string, b': string, c: char)
    requires a + [c] + b == a' + [c] + b'
    requires c !in b && c !in b'
    ensures a == a' && b == b'
  {
    var s, s' := a + [c] + b, a' + [c] + b';
    assert s[|a|] == c && s'[|a'|] == c;
    assert forall k :: |a| < k < |s| ==> s[k] == b[k - |a| - 1] && s[k] != c;
    assert forall k :: |a'| < k < |s'| ==> s'[k] == b'[k - |a'| - 1] && s'[k] != c;
    assert |a| == |a'|;
    assert a == s[..|a|] && a' == s'[..|a|];
    assert b == s[|a| + 1..] && b' == s'[|a| + 1..];
  }

  lemma LowerKeepsMarks(c: char)
    ensures Lower(c) == '.' <==> c == '.'
    ensures IsSpace(Lower(c)) <==> IsSpace(c)
  {
  }

  lemma ToLowerOfSlice(s: string, i: nat, j: nat)
    requires i <= j <= |s|
    ensures ToLower(s[i..j]) == ToLower(s)[i..j]
  {
  }

  lemma {:induction false} TrimLeftLower(s: string)
    ensures TrimLeft(ToLower(s)) == ToLower(TrimLeft(s))
  {
    if s != "" {
      LowerKeepsMarks(s[0]);
      ToLowerOfSlice(s, 1, |s|);
      assert s[1..] == s[1..|s|] && ToLower(s)[1..] == ToLower(s)[1..|s|];
      TrimLeftLower(s[1..]);
    }
  }

  lemma {:induction false} TrimRightLower(s: string)
    ensures TrimRight(ToLower(s)) == ToLower(TrimRight(s))
  {
    if s != "" {
      LowerKeepsMarks(s[|s| - 1]);
      ToLowerOfSlice(s, 0, |s| - 1);
      TrimRightLower(s[..|s| - 1]);
    }
  }

  lemma TrimDotLower(s: string)
    ensures TrimDot(ToLower(s)) == ToLower(TrimDot(s))
  {
  }
}
