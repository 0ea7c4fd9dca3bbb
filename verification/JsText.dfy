// Text as JavaScript makes it: integers in base 10, trim() and toLowerCase().
module JsText {
  const DIGITS := "0123456789"

  function Digits(n: nat): (s: string)
    ensures |s| >= 1
  {
    if n < 10 then [DIGITS[n]] else Digits(n / 10) + [DIGITS[n % 10]]
  }

  function IntText(n: int): (s: string)
    ensures |s| >= 1
  {
    if n < 0 then "-" + Digits(-n) else Digits(n)
  }

  lemma {:induction false} DigitsNoSign(n: nat)
    ensures Digits(n)[0] != '-'
  {
    if n >= 10 { DigitsNoSign(n / 10); }
  }

  lemma {:induction false} DigitsInjective(m: nat, n: nat)
    requires Digits(m) == Digits(n)
    ensures m == n
  {
    var s := Digits(m);
    assert s[|s| - 1] == DIGITS[m % 10] == DIGITS[n % 10];
    assert m % 10 == n % 10;
    if m >= 10 && n >= 10 {
      assert s[..|s| - 1] == Digits(m / 10) == Digits(n / 10);
      DigitsInjective(m / 10, n / 10);
    }
  }

  lemma IntTextInjective(m: int, n: int)
    requires IntText(m) == IntText(n)
    ensures m == n
  {
    if m < 0 && n < 0 {
      assert IntText(m)[1..] == Digits(-m) && IntText(n)[1..] == Digits(-n);
      DigitsInjective(-m, -n);
    } else if m >= 0 && n >= 0 {
      DigitsInjective(m, n);
    } else if m >= 0 {
      DigitsNoSign(m);
    } else {
      DigitsNoSign(n);
    }
  }

  predicate IsSpace(c: char) {
    var v := c as int;
    9 <= v <= 13 || v in {0x20, 0xA0, 0x1680, 0x2028, 0x2029, 0x202F, 0x205F, 0x3000, 0xFEFF} || 0x2000 <= v <= 0x200A
  }

  // The white space and line ends of ECMA-262, sections 12.2 and 12.3.
  lemma SpacesAre(c: char)
    ensures IsSpace(c) <==>
            c as int in {0x9, 0xA, 0xB, 0xC, 0xD, 0x20, 0xA0, 0x1680, 0x2000, 0x2001, 0x2002, 0x2003, 0x2004, 0x2005, 0x2006,
                         0x2007, 0x2008, 0x2009, 0x200A, 0x2028, 0x2029, 0x202F, 0x205F, 0x3000, 0xFEFF}
  {
  }

  function TrimStart(s: string): string {
    if s != "" && IsSpace(s[0]) then TrimStart(s[1..]) else s
  }

  function TrimEnd(s: string): string {
    if s != "" && IsSpace(s[|s| - 1]) then TrimEnd(s[..|s| - 1]) else s
  }

  function Trim(s: string): string { TrimEnd(TrimStart(s)) }

  // ASCII letters only.
  function LowerCase(c: char): char {
    if 'A' <= c <= 'Z' then (c as int + 32) as char else c
  }

  function ToLowerCase(s: string): string {
    if s == "" then "" else [LowerCase(s[0])] + ToLowerCase(s[1..])
  }

  // ---- What they do ----

  predicate Blank(s: string) { forall i | 0 <= i < |s| :: IsSpace(s[i]) }

  // s is white space but for the stretch from i to j, which begins and ends with something else.
  predicate CoreAt(s: string, i: nat, j: nat) {
    i <= j <= |s| && Blank(s[..i]) && Blank(s[j..]) && (i < j ==> !IsSpace(s[i]) && !IsSpace(s[j - 1]))
  }

  lemma {:induction false} TrimStartIs(s: string) returns (i: nat)
    ensures i <= |s| && Blank(s[..i]) && TrimStart(s) == s[i..] && (i < |s| ==> !IsSpace(s[i]))
  {
    if s != "" && IsSpace(s[0]) {
      i := TrimStartIs(s[1..]);
      assert s[..i + 1] == [s[0]] + s[1..][..i] && s[1..][i..] == s[i + 1..];
      i := i + 1;
    } else {
      i := 0;
    }
  }

  lemma {:induction false} TrimEndIs(s: string) returns (j: nat)
    ensures j <= |s| && Blank(s[j..]) && TrimEnd(s) == s[..j] && (j > 0 ==> !IsSpace(s[j - 1]))
  {
    if s != "" && IsSpace(s[|s| - 1]) {
      var t := s[..|s| - 1];
      j := TrimEndIs(t);
      assert s[j..] == t[j..] + [s[|s| - 1]] && t[..j] == s[..j];
    } else {
      j := |s|;
    }
  }

  // trim() leaves the core.
  lemma TrimIsCore(s: string) returns (i: nat, j: nat)
    ensures CoreAt(s, i, j) && Trim(s) == s[i..j]
  {
    i := TrimStartIs(s);
    var k := TrimEndIs(s[i..]);
    j := i + k;
    assert s[i..][k..] == s[j..] && s[i..][..k] == s[i..j];
  }

  lemma CoreIsUnique(s: string, i: nat, j: nat, k: nat, l: nat)
    requires CoreAt(s, i, j) && CoreAt(s, k, l)
    ensures s[i..j] == s[k..l]
  {
    CoreLiesIn(s, i, j, k, l);
    CoreLiesIn(s, k, l, i, j);
  }

  lemma CoreLiesIn(s: string, i: nat, j: nat, k: nat, l: nat)
    requires CoreAt(s, i, j) && CoreAt(s, k, l)
    ensures i < j ==> k <= i && j <= l
  {
    if i < j {
      SpaceBefore(s, i, k);
      SpaceAfter(s, j - 1, l);
    }
  }

  lemma SpaceBefore(s: string, i: nat, k: nat)
    requires i < |s| && k <= |s| && Blank(s[..k])
    ensures i < k ==> IsSpace(s[i])
  {
    if i < k { assert s[..k][i] == s[i]; }
  }

  lemma SpaceAfter(s: string, i: nat, l: nat)
    requires i < |s| && l <= |s| && Blank(s[l..])
    ensures l <= i ==> IsSpace(s[i])
  {
    if l <= i { assert s[l..][i - l] == s[i]; }
  }

  lemma {:induction false} ToLowerCaseIs(s: string)
    ensures |ToLowerCase(s)| == |s|
    ensures forall i | 0 <= i < |s| :: ToLowerCase(s)[i] == LowerCase(s[i])
  {
    hide LowerCase;
    if s != "" { ToLowerCaseIs(s[1..]); }
  }

  // One character is the other, or its upper or lower case.
  predicate SameLetter(a: char, b: char) {
    || a == b
    || ('A' <= a <= 'Z' && b as int == a as int + 32)
    || ('A' <= b <= 'Z' && a as int == b as int + 32)
  }

  predicate SameLetters(a: string, b: string) {
    |a| == |b| && forall i | 0 <= i < |a| :: SameLetter(a[i], b[i])
  }

  // Two texts are the same but for white space around them and the case of their letters.
  ghost predicate Agree(a: string, b: string) {
    exists i: nat, j: nat, k: nat, l: nat | CoreAt(a, i, j) && CoreAt(b, k, l) :: SameLetters(a[i..j], b[k..l])
  }

  lemma SameLowerCase(a: char, b: char)
    ensures LowerCase(a) == LowerCase(b) <==> SameLetter(a, b)
  {
  }

  lemma SameLowerCases(a: string, b: string)
    ensures ToLowerCase(a) == ToLowerCase(b) <==> SameLetters(a, b)
  {
    ToLowerCaseIs(a);
    ToLowerCaseIs(b);
    hide ToLowerCase, LowerCase, SameLetter;
    forall i | 0 <= i < |a| && i < |b| ensures LowerCase(a[i]) == LowerCase(b[i]) <==> SameLetter(a[i], b[i]) {
      SameLowerCase(a[i], b[i]);
    }
    if ToLowerCase(a) == ToLowerCase(b) {
      forall i | 0 <= i < |a| ensures SameLetter(a[i], b[i]) { assert ToLowerCase(a)[i] == ToLowerCase(b)[i]; }
    }
  }

  // Trimmed and in lower case, exactly those texts are equal.
  lemma NormalizedEqualIffAgree(a: string, b: string)
    ensures ToLowerCase(Trim(a)) == ToLowerCase(Trim(b)) <==> Agree(a, b)
  {
    var i, j := TrimIsCore(a);
    var k, l := TrimIsCore(b);
    SameLowerCases(Trim(a), Trim(b));
    if Agree(a, b) {
      var i': nat, j': nat, k': nat, l': nat :| CoreAt(a, i', j') && CoreAt(b, k', l') && SameLetters(a[i'..j'], b[k'..l']);
      CoreIsUnique(a, i, j, i', j');
      CoreIsUnique(b, k, l, k', l');
    }
    hide Trim, ToLowerCase, SameLetters;
  }

  lemma BlankIsNothing(s: string)
    ensures ToLowerCase(Trim(s)) == "" <==> Blank(s)
  {
    var i, j := TrimIsCore(s);
    ToLowerCaseIs(Trim(s));
    if i == j { assert s == s[..i] + s[j..]; }
  }
}
