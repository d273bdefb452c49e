/**
  * Text helpers shared by the dashboard: decimal rendering of numbers (JavaScript's
  * `toString()` / template literals), `padStart` with '0', ASCII lower-casing and a reader
  * for the duration texts, so that formatting functions can be given an inverse.
  */
module Text {
  import opened Wrappers
  import opened Sequences

  predicate IsDigit(c: char) { '0' <= c <= '9' }

  predicate AllDigits(s: string) { forall i :: 0 <= i < |s| ==> IsDigit(s[i]) }

  function DigitChar(d: nat): (c: char)
    requires d < 10
    ensures IsDigit(c) && c as int - '0' as int == d
  {
    ('0' as int + d) as char
  }

  /** The number a string of decimal digits denotes (leading zeros allowed). */
  function DigitsValue(s: string): nat
    requires AllDigits(s)
  {
    if s == [] then 0 else DigitsValue(s[..|s| - 1]) * 10 + (s[|s| - 1] as int - '0' as int)
  }

  /** Decimal rendering of a natural number, without leading zeros. */
  function NatToString(n: nat): (s: string)
    ensures 1 <= |s| && AllDigits(s)
    ensures DigitsValue(s) == n
    ensures s[0] == '0' ==> n == 0
  {
    if n < 10 then [DigitChar(n)]
    else
      var p := NatToString(n / 10);
      var s := p + [DigitChar(n % 10)];
      assert s[..|s| - 1] == p;
      s
  }

  /** Decimal rendering of an integer, with a leading '-' for negative numbers. */
  function IntToString(n: int): (s: string)
    ensures n >= 0 ==> s == NatToString(n)
    ensures n < 0 ==> s == "-" + NatToString(-n)
  {
    if n < 0 then "-" + NatToString(-n) else NatToString(n)
  }

  /** `n` copies of `c`. */
  function Repeat(c: char, n: nat): (r: string)
    ensures |r| == n && forall i :: 0 <= i < n ==> r[i] == c
  {
    seq(n, i => c)
  }

  /** `s.padStart(width, c)`: prefix copies of `c` until the length reaches `width`. */
  function PadStart(s: string, width: nat, c: char): (r: string)
    ensures |s| >= width ==> r == s
    ensures |s| < width ==> r == Repeat(c, width - |s|) + s
    decreases width - |s|
  {
    if |s| >= width then s
    else
      var r := PadStart([c] + s, width, c);
      assert Repeat(c, width - |s| - 1) + ([c] + s) == Repeat(c, width - |s|) + s;
      r
  }

  lemma {:induction false} DigitsValueLeadingZeros(z: nat, s: string)
    requires AllDigits(s)
    ensures AllDigits(Zeros(z) + s) && DigitsValue(Zeros(z) + s) == DigitsValue(s)
    decreases |s|
  {
    var t := Zeros(z) + s;
    if s == [] {
      ZerosValue(z);
      assert t == Zeros(z);
    } else {
      var s' := s[..|s| - 1];
      DigitsValueLeadingZeros(z, s');
      assert t[..|t| - 1] == Zeros(z) + s';
    }
  }

  function Zeros(z: nat): (r: string)
    ensures |r| == z && forall i :: 0 <= i < z ==> r[i] == '0'
  {
    Repeat('0', z)
  }

  lemma {:induction false} ZerosValue(z: nat)
    ensures AllDigits(Zeros(z)) && DigitsValue(Zeros(z)) == 0
  {
    if z > 0 {
      ZerosValue(z - 1);
      assert Zeros(z)[..z - 1] == Zeros(z - 1);
    }
  }

  /** `padStart` with '0' never changes the number a digit string denotes. */
  lemma PadStartZerosValue(s: string, width: nat)
    requires AllDigits(s)
    ensures AllDigits(PadStart(s, width, '0'))
    ensures DigitsValue(PadStart(s, width, '0')) == DigitsValue(s)
  {
    if |s| < width {
      DigitsValueLeadingZeros(width - |s|, s);
    }
  }

  /** `n.toString().padStart(2, '0')`. */
  function TwoDigits(n: nat): string {
    PadStart(NatToString(n), 2, '0')
  }

  /** A number below 100 prints as exactly two digits that denote it. */
  lemma TwoDigitsDenote(n: nat)
    requires n < 100
    ensures var t := TwoDigits(n);
      |t| == 2 && AllDigits(t) && DigitsValue(t) == n
  {
    var s := NatToString(n);
    if n >= 10 {
      assert NatToString(n / 10) == [DigitChar(n / 10)];
    }
    assert |s| <= 2;
    PadStartZerosValue(s, 2);
  }

  function LowerChar(c: char): (l: char)
    ensures 'A' <= c <= 'Z' ==> l as int == c as int + 32
    ensures !('A' <= c <= 'Z') ==> l == c
  {
    if 'A' <= c <= 'Z' then (c as int + 32) as char else c
  }

  /** `toLowerCase()` restricted to ASCII letters; every other character is kept. */
  function ToLower(s: string): (r: string)
    ensures |r| == |s|
    ensures forall i :: 0 <= i < |s| ==> r[i] == LowerChar(s[i])
  {
    seq(|s|, i requires 0 <= i < |s| => LowerChar(s[i]))
  }

  /** A text reads as "true" ignoring case exactly when it is one of the sixteen spellings of t-r-u-e. */
  lemma LowerIsTrue(s: string)
    ensures ToLower(s) == "true" <==>
      |s| == 4 && s[0] in "tT" && s[1] in "rR" && s[2] in "uU" && s[3] in "eE"
  {
    if ToLower(s) == "true" {
      assert |s| == 4;
      assert LowerChar(s[0]) == 't' && LowerChar(s[1]) == 'r';
      assert LowerChar(s[2]) == 'u' && LowerChar(s[3]) == 'e';
    }
    if |s| == 4 && s[0] in "tT" && s[1] in "rR" && s[2] in "uU" && s[3] in "eE" {
      assert ToLower(s)[0] == 't' && ToLower(s)[1] == 'r' && ToLower(s)[2] == 'u' && ToLower(s)[3] == 'e';
    }
  }

  /** Number of leading decimal digits of `s`. */
  function DigitPrefixLength(s: string): (k: nat)
    ensures k <= |s| && AllDigits(s[..k])
    ensures k < |s| ==> !IsDigit(s[k])
  {
    if s == [] || !IsDigit(s[0]) then 0
    else
      var k := 1 + DigitPrefixLength(s[1..]);
      assert s[..k] == [s[0]] + s[1..][..k - 1];
      k
  }

  lemma {:induction false} DigitPrefixOf(d: string, t: string)
    requires AllDigits(d)
    requires t == [] || !IsDigit(t[0])
    ensures DigitPrefixLength(d + t) == |d|
    decreases |d|
  {
    if d != [] {
      assert (d + t)[1..] == d[1..] + t;
      DigitPrefixOf(d[1..], t);
    } else {
      assert d + t == t;
    }
  }

  /** Reads back a digit string followed by `rest`: its value and what follows. */
  lemma ReadNumber(n: nat, rest: string)
    requires rest == [] || !IsDigit(rest[0])
    ensures var s := NatToString(n) + rest;
      var k := DigitPrefixLength(s);
      k == |NatToString(n)| && k > 0 && s[..k] == NatToString(n) && s[k..] == rest &&
      DigitsValue(s[..k]) == n
  {
    var d := NatToString(n);
    DigitPrefixOf(d, rest);
    assert (d + rest)[..|d|] == d && (d + rest)[|d|..] == rest;
  }

  /** A digit string followed by a non-digit (or nothing) splits only one way. */
  lemma DigitsThenRest(x: string, t: string, y: string, u: string)
    requires AllDigits(x) && AllDigits(y)
    requires t == [] || !IsDigit(t[0])
    requires u == [] || !IsDigit(u[0])
    requires x + t == y + u
    ensures x == y && t == u
  {
    DigitPrefixOf(x, t);
    DigitPrefixOf(y, u);
    assert (x + t)[..|x|] == x && (x + t)[|x|..] == t;
    assert (y + u)[..|y|] == y && (y + u)[|y|..] == u;
  }

  /** `"<a>-<b>"` determines both numbers. */
  lemma NumberPairInjective(a: nat, b: nat, c: nat, d: nat)
    requires NatToString(a) + "-" + NatToString(b) == NatToString(c) + "-" + NatToString(d)
    ensures a == c && b == d
  {
    var x, y := NatToString(a), NatToString(c);
    var t, u := "-" + NatToString(b), "-" + NatToString(d);
    AppendAssoc(x, "-", NatToString(b));
    AppendAssoc(y, "-", NatToString(d));
    DigitsThenRest(x, t, y, u);
    assert t[1..] == NatToString(b) && u[1..] == NatToString(d);
  }

  /**
    * Reads a duration text of the three shapes the dashboard prints ("<m>min", "<h>h",
    * "<h>h <m>min") back into minutes.
    */
  function ParseDuration(s: string): Option<int> {
    var k := DigitPrefixLength(s);
    if k == 0 then None else ParseUnit(DigitsValue(s[..k]), s[k..])
  }

  /** What follows the leading number `n` of a duration text. */
  function ParseUnit(n: nat, rest: string): Option<int> {
    if rest == "min" then Some(n)
    else if rest == "h" then Some(60 * n)
    else if |rest| > 2 && rest[..2] == "h " then ParseMinutesAfter(n, rest[2..])
    else None
  }

  /** The "<m>min" after "<n>h ". */
  function ParseMinutesAfter(n: nat, r: string): Option<int> {
    var k := DigitPrefixLength(r);
    if k > 0 && r[k..] == "min" then Some(60 * n + DigitsValue(r[..k])) else None
  }

  lemma ParseNumberThen(n: nat, rest: string)
    requires rest == [] || !IsDigit(rest[0])
    ensures ParseDuration(NatToString(n) + rest) == ParseUnit(n, rest)
  {
    ReadNumber(n, rest);
  }

  lemma ParseMinutesOf(n: nat, m: nat)
    ensures ParseMinutesAfter(n, NatToString(m) + "min") == Some(60 * n + m)
  {
    ReadNumber(m, "min");
  }

  /** `s.split("/")`: the parts between the separators, so one more than there are separators. */
  function Split(s: string): (parts: seq<string>)
    ensures |parts| >= 1
    ensures forall i :: 0 <= i < |parts| ==> '/' !in parts[i]
  {
    if s == [] then [""]
    else
      var p := Split(s[..|s| - 1]);
      var c := s[|s| - 1];
      if c == '/' then p + [""] else p[..|p| - 1] + [p[|p| - 1] + [c]]
  }

  /** The parts put back together with "/" between them. */
  function Join(parts: seq<string>): string
    requires |parts| >= 1
  {
    if |parts| == 1 then parts[0] else Join(parts[..|parts| - 1]) + "/" + parts[|parts| - 1]
  }

  lemma {:induction false} JoinExtendLast(q: seq<string>, c: char)
    requires |q| >= 1
    ensures Join(q[..|q| - 1] + [q[|q| - 1] + [c]]) == Join(q) + [c]
  {
    var r := q[..|q| - 1] + [q[|q| - 1] + [c]];
    if |q| > 1 {
      assert r[..|r| - 1] == q[..|q| - 1];
    }
  }

  /** Splitting loses nothing: joining the parts gives the topic back. */
  lemma {:induction false} JoinSplit(s: string)
    ensures Join(Split(s)) == s
  {
    if s != [] {
      var init, c := s[..|s| - 1], s[|s| - 1];
      assert s == init + [c];
      JoinSplit(init);
      JoinSplitStep(init, c);
    }
  }

  /** One more character keeps `Join(Split(_))` the identity. */
  lemma JoinSplitStep(init: string, c: char)
    requires Join(Split(init)) == init
    ensures Join(Split(init + [c])) == init + [c]
  {
    var s := init + [c];
    var p := Split(init);
    assert s[..|s| - 1] == init && s[|s| - 1] == c;
    if c == '/' {
      assert Split(s) == p + [""];
      assert (p + [""])[..|p|] == p;
    } else {
      assert Split(s) == p[..|p| - 1] + [p[|p| - 1] + [c]];
      JoinExtendLast(p, c);
    }
  }

  lemma {:induction false} SplitNoSeparator(b: string)
    requires '/' !in b
    ensures Split(b) == [b]
  {
    if b != [] {
      SplitNoSeparator(b[..|b| - 1]);
      assert b[..|b| - 1] + [b[|b| - 1]] == b;
    }
  }

  lemma {:induction false} SplitAfterSeparator(t: string, b: string)
    requires '/' !in b
    ensures Split(t + "/" + b) == Split(t) + [b]
    decreases |b|
  {
    var s := t + "/" + b;
    if b == [] {
      assert s[..|s| - 1] == t;
    } else {
      var b' := b[..|b| - 1];
      SplitAfterSeparator(t, b');
      assert s[..|s| - 1] == t + "/" + b';
      assert b' + [b[|b| - 1]] == b;
    }
  }

  /** Splitting undoes joining parts free of separators. */
  lemma {:induction false} SplitJoin(parts: seq<string>)
    requires |parts| >= 1
    requires forall i :: 0 <= i < |parts| ==> '/' !in parts[i]
    ensures Split(Join(parts)) == parts
  {
    if |parts| == 1 {
      SplitNoSeparator(parts[0]);
    } else {
      var init := parts[..|parts| - 1];
      SplitJoin(init);
      SplitAfterSeparator(Join(init), parts[|parts| - 1]);
    }
  }
}
