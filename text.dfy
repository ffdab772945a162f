/**
 * The parts of JavaScript's string and number behaviour that the core relies on:
 * the `\s` character class and `trim`, `split`, `join`, `replace` with a string
 * pattern, `Number()` and `parseInt` on decimal text, `toString()` of an integer,
 * the `('00' + n).slice(-2)` padding idiom and the `<` comparison of strings.
 */
module Text {
  import opened Wrappers

  /** JavaScript's WhiteSpace and LineTerminator characters: the `\s` class, and what `trim` removes. */
  predicate IsWhiteSpace(c: char) {
    || c == ' ' || c == '\t' || c == '\n' || c == '\U{B}' || c == '\U{C}' || c == '\r'
    || c == '\U{A0}' || c == '\U{1680}' || ('\U{2000}' <= c <= '\U{200A}')
    || c == '\U{2028}' || c == '\U{2029}' || c == '\U{202F}' || c == '\U{205F}'
    || c == '\U{3000}' || c == '\U{FEFF}'
  }

  /** No character of `s` lies outside `\s`. */
  predicate IsBlank(s: string) {
    forall i :: 0 <= i < |s| ==> IsWhiteSpace(s[i])
  }

  /** JavaScript's `\d`: the ASCII digits only. */
  predicate IsDigit(c: char) {
    '0' <= c <= '9'
  }

  predicate AllDigits(s: string) {
    forall i :: 0 <= i < |s| ==> IsDigit(s[i])
  }

  function DigitChar(d: nat): (c: char)
    requires d < 10
    ensures IsDigit(c) && c as int - '0' as int == d
  {
    (('0' as int) + d) as char
  }

  function DigitValue(c: char): (d: nat)
    requires IsDigit(c)
    ensures d < 10 && DigitChar(d) == c
  {
    c as int - '0' as int
  }

  /** `n.toString()` for a non-negative integer. */
  function NatToString(n: nat): (s: string)
    decreases n
  {
    if n < 10 then [DigitChar(n)] else NatToString(n / 10) + [DigitChar(n % 10)]
  }

  /** `i.toString()` for any integer. */
  function IntToString(i: int): string {
    if i < 0 then "-" + NatToString(-i) else NatToString(i)
  }

  /** `Number(s)` for text made of ASCII digits only; `Number('')` is 0. */
  function DigitsValue(s: string): nat
    requires AllDigits(s)
    decreases |s|
  {
    if s == [] then 0 else DigitsValue(s[..|s| - 1]) * 10 + DigitValue(s[|s| - 1])
  }

  lemma AllDigitsSlice(s: string, i: nat, j: nat)
    requires AllDigits(s) && i <= j <= |s|
    ensures AllDigits(s[i..j])
  {
    forall k | 0 <= k < j - i
      ensures IsDigit(s[i..j][k])
    {
      assert s[i..j][k] == s[i + k];
    }
  }

  /** The value of a two-digit string. */
  lemma TwoDigitValue(s: string)
    requires |s| == 2 && AllDigits(s)
    ensures DigitsValue(s) == DigitValue(s[0]) * 10 + DigitValue(s[1])
  {
    var first := s[..1];
    assert s[..|s| - 1] == first;
    assert first[..|first| - 1] == [];
    assert DigitsValue(first) == DigitValue(s[0]);
  }

  lemma {:induction false} NatToStringDigits(n: nat)
    ensures |NatToString(n)| >= 1 && AllDigits(NatToString(n))
    ensures n < 10 <==> |NatToString(n)| == 1
    ensures NatToString(n)[|NatToString(n)| - 1] == DigitChar(n % 10)
    decreases n
  {
    if n >= 10 {
      NatToStringDigits(n / 10);
    }
  }

  /** `Number(n.toString()) == n`: reading back a printed number gives the number. */
  lemma {:induction false} DigitsValueOfNatToString(n: nat)
    ensures AllDigits(NatToString(n)) && DigitsValue(NatToString(n)) == n
    decreases n
  {
    NatToStringDigits(n);
    if n >= 10 {
      DigitsValueOfNatToString(n / 10);
      var s := NatToString(n);
      assert s[..|s| - 1] == NatToString(n / 10);
    }
  }

  /** The digit string of `n` written with exactly two characters. */
  function TwoDigits(n: nat): (s: string)
    ensures |s| == 2 && AllDigits(s)
  {
    [DigitChar((n / 10) % 10), DigitChar(n % 10)]
  }

  /** `('00' + n).slice(-2)`: the last two characters of `n` printed after two zeros. */
  function Pad2(n: nat): string {
    var t := "00" + NatToString(n);
    t[|t| - 2..]
  }

  /** Padding keeps exactly the last two decimal digits of `n`. */
  lemma {:induction false} Pad2IsLastTwoDigits(n: nat)
    ensures Pad2(n) == TwoDigits(n)
  {
    NatToStringDigits(n);
    var t := "00" + NatToString(n);
    if n >= 10 {
      NatToStringDigits(n / 10);
      var s := NatToString(n);
      assert s == NatToString(n / 10) + [DigitChar(n % 10)];
      assert s[|s| - 2] == NatToString(n / 10)[|NatToString(n / 10)| - 1];
    }
  }

  lemma Pad2Value(n: nat)
    ensures |Pad2(n)| == 2 && AllDigits(Pad2(n)) && DigitsValue(Pad2(n)) == n % 100
  {
    Pad2IsLastTwoDigits(n);
    var s := TwoDigits(n);
    assert s[..1] == [DigitChar((n / 10) % 10)];
    assert DigitsValue(s[..1]) == (n / 10) % 10 by {
      assert s[..1][..0] == [];
    }
  }

  /** `s.split(c)` for a separator character class: the pieces between separators. */
  function Split(s: string, seps: set<char>): (r: seq<string>)
    ensures |r| >= 1
    decreases |s|
  {
    if s == [] then [""]
    else
      var rest := Split(s[1..], seps);
      if s[0] in seps then [""] + rest
      else [[s[0]] + rest[0]] + rest[1..]
  }

  function Count(s: string, seps: set<char>): nat
    decreases |s|
  {
    if s == [] then 0 else (if s[0] in seps then 1 else 0) + Count(s[1..], seps)
  }

  /**
   * `split` yields one piece more than there are separators; every character of a
   * piece is a character of the text that is not a separator.
   */
  lemma {:induction false} SplitShape(s: string, seps: set<char>)
    ensures |Split(s, seps)| == Count(s, seps) + 1
    ensures forall i, j :: 0 <= i < |Split(s, seps)| && 0 <= j < |Split(s, seps)[i]| ==>
      Split(s, seps)[i][j] !in seps && Split(s, seps)[i][j] in s
    decreases |s|
  {
    if s != [] {
      SplitShape(s[1..], seps);
    }
  }

  /** Text without separators is one piece. */
  lemma {:induction false} SplitNoSeparator(s: string, seps: set<char>)
    requires Count(s, seps) == 0
    ensures Split(s, seps) == [s]
    decreases |s|
  {
    if s != [] {
      assert s[0] !in seps;
      SplitNoSeparator(s[1..], seps);
      assert s == [s[0]] + s[1..];
    }
  }

  /** Text in which no character is a separator holds no separator. */
  lemma {:induction false} CountNone(s: string, seps: set<char>)
    requires forall i :: 0 <= i < |s| ==> s[i] !in seps
    ensures Count(s, seps) == 0
    decreases |s|
  {
    if s != [] {
      CountNone(s[1..], seps);
    }
  }

  /** A separator-free piece followed by a separator is split off as the first piece. */
  lemma {:induction false} SplitAppend(a: string, c: char, rest: string, seps: set<char>)
    requires Count(a, seps) == 0 && c in seps
    ensures Split(a + [c] + rest, seps) == [a] + Split(rest, seps)
    decreases |a|
  {
    if a == [] {
      assert a + [c] + rest == [c] + rest;
    } else {
      var t := a + [c] + rest;
      assert t[0] == a[0] && t[1..] == a[1..] + [c] + rest;
      SplitAppend(a[1..], c, rest, seps);
      assert [a[0]] + a[1..] == a;
    }
  }

  /** Two separator-free pieces around one separator split back into those two pieces. */
  lemma SplitAroundSeparator(a: string, c: char, b: string, seps: set<char>)
    requires Count(a, seps) == 0 && Count(b, seps) == 0 && c in seps
    ensures Split(a + [c] + b, seps) == [a, b]
  {
    SplitAppend(a, c, b, seps);
    SplitNoSeparator(b, seps);
  }

  /** The first piece is the text up to its first separator, or all of it when there is none. */
  lemma {:induction false} SplitFirstPiece(s: string, seps: set<char>)
    ensures var p := Split(s, seps)[0];
      && p <= s && (forall i :: 0 <= i < |p| ==> p[i] !in seps)
      && (|p| == |s| || s[|p|] in seps)
    decreases |s|
  {
    if s != [] && s[0] !in seps {
      var q := Split(s[1..], seps)[0];
      SplitFirstPiece(s[1..], seps);
      var p := Split(s, seps)[0];
      assert p == [s[0]] + q;
      assert s == [s[0]] + s[1..];
      forall i | 0 <= i < |p|
        ensures p[i] !in seps
      {
        if i > 0 { assert p[i] == q[i - 1]; }
      }
      assert |p| == |s| || s[|p|] == s[1..][|q|];
    }
  }

  /** `s.split(seps, limit)`: at most `limit` pieces, the first ones `split` yields. */
  function SplitLimit(s: string, seps: set<char>, limit: nat): (r: seq<string>)
    ensures |r| <= limit && r <= Split(s, seps)
    ensures |Split(s, seps)| <= limit ==> r == Split(s, seps)
  {
    var pieces := Split(s, seps);
    if |pieces| <= limit then pieces else pieces[..limit]
  }

  /** `parts.join(sep)`. */
  function Join(parts: seq<string>, sep: string): string
    decreases |parts|
  {
    if |parts| == 0 then ""
    else if |parts| == 1 then parts[0]
    else parts[0] + sep + Join(parts[1..], sep)
  }

  /** Joining the pieces of a split with the separator restores the text. */
  lemma {:induction false} JoinSplit(s: string, c: char)
    ensures Join(Split(s, {c}), [c]) == s
    decreases |s|
  {
    if s != [] {
      JoinSplit(s[1..], c);
      var rest := Split(s[1..], {c});
      if s[0] != c {
        if |rest| == 1 {
        } else {
          calc {
            Join(Split(s, {c}), [c]);
            ([s[0]] + rest[0]) + [c] + Join(rest[1..], [c]);
            [s[0]] + (rest[0] + [c] + Join(rest[1..], [c]));
            [s[0]] + Join(rest, [c]);
          }
        }
      }
    }
  }

  function TrimStart(s: string): (r: string)
    ensures |r| <= |s|
    decreases |s|
  {
    if s != [] && IsWhiteSpace(s[0]) then TrimStart(s[1..]) else s
  }

  function TrimEnd(s: string): (r: string)
    ensures |r| <= |s|
    decreases |s|
  {
    if s != [] && IsWhiteSpace(s[|s| - 1]) then TrimEnd(s[..|s| - 1]) else s
  }

  /** `s.trim()`. */
  function Trim(s: string): string {
    TrimEnd(TrimStart(s))
  }

  /** What `trim` leaves neither starts nor ends with white space, and is a piece of the input. */
  lemma {:induction false} TrimShape(s: string)
    ensures Trim(s) != [] ==> !IsWhiteSpace(Trim(s)[0]) && !IsWhiteSpace(Trim(s)[|Trim(s)| - 1])
    ensures exists i, j :: 0 <= i <= j <= |s| && Trim(s) == s[i..j]
  {
    var i := TrimStartAt(s);
    var j := TrimEndAt(s[i..]);
    assert s[i..][..j] == s[i..i + j];
  }

  lemma {:induction false} TrimStartAt(s: string) returns (i: nat)
    ensures i <= |s| && TrimStart(s) == s[i..]
    ensures TrimStart(s) != [] ==> !IsWhiteSpace(TrimStart(s)[0])
    decreases |s|
  {
    if s != [] && IsWhiteSpace(s[0]) {
      var k := TrimStartAt(s[1..]);
      i := k + 1;
      assert s[1..][k..] == s[i..];
    } else {
      i := 0;
    }
  }

  lemma {:induction false} TrimEndAt(s: string) returns (j: nat)
    ensures j <= |s| && TrimEnd(s) == s[..j]
    ensures TrimEnd(s) != [] ==> !IsWhiteSpace(TrimEnd(s)[|TrimEnd(s)| - 1])
    decreases |s|
  {
    if s != [] && IsWhiteSpace(s[|s| - 1]) {
      j := TrimEndAt(s[..|s| - 1]);
      assert s[..|s| - 1][..j] == s[..j];
    } else {
      j := |s|;
    }
  }

  predicate OccursAt(s: string, pat: string, i: nat) {
    i + |pat| <= |s| && s[i..i + |pat|] == pat
  }

  /** `s.indexOf(pat, from)`. */
  function IndexFrom(s: string, pat: string, from: nat): (r: Option<nat>)
    ensures r.Some? ==> from <= r.value && OccursAt(s, pat, r.value)
    ensures forall j :: from <= j && (r.None? || j < r.value) ==> !OccursAt(s, pat, j)
    decreases |s| + 1 - from
  {
    if from + |pat| > |s| then None
    else if OccursAt(s, pat, from) then Some(from)
    else IndexFrom(s, pat, from + 1)
  }

  /** `s.replace(pat, rep)` with a string pattern: only the first occurrence is replaced. */
  function ReplaceFirst(s: string, pat: string, rep: string): (r: string)
    ensures IndexFrom(s, pat, 0).None? ==> r == s
    ensures IndexFrom(s, pat, 0).Some? ==>
      var i := IndexFrom(s, pat, 0).value;
      r == s[..i] + rep + s[i + |pat|..] && forall j :: 0 <= j < i ==> !OccursAt(s, pat, j)
  {
    match IndexFrom(s, pat, 0)
    case None => s
    case Some(i) => s[..i] + rep + s[i + |pat|..]
  }

  /** JavaScript's `a < b` on strings: lexicographic order on characters. */
  predicate Less(a: string, b: string)
    decreases |a|
  {
    if a == [] then b != []
    else if b == [] then false
    else if a[0] != b[0] then a[0] < b[0]
    else Less(a[1..], b[1..])
  }

  lemma {:induction false} LessIrreflexive(a: string)
    ensures !Less(a, a)
    decreases |a|
  {
    if a != [] {
      LessIrreflexive(a[1..]);
    }
  }

  lemma {:induction false} LessTransitive(a: string, b: string, c: string)
    requires Less(a, b) && Less(b, c)
    ensures Less(a, c)
    decreases |a|
  {
    if a != [] && b != [] && c != [] && a[0] == b[0] && b[0] == c[0] {
      LessTransitive(a[1..], b[1..], c[1..]);
    }
  }

  lemma {:induction false} LessTrichotomy(a: string, b: string)
    ensures a == b || Less(a, b) || Less(b, a)
    decreases |a|
  {
    if a != [] && b != [] && a[0] == b[0] {
      LessTrichotomy(a[1..], b[1..]);
      if a[1..] == b[1..] {
        assert a == [a[0]] + a[1..] && b == [b[0]] + b[1..];
      }
    }
  }

  /** `!(b < a)`: the order `Array.prototype.sort` sees through the comparator `a < b ? -1 : a > b ? 1 : 0`. */
  predicate AtMost(a: string, b: string) {
    !Less(b, a)
  }

  lemma AtMostTotal(a: string, b: string)
    ensures AtMost(a, b) || AtMost(b, a)
  {
    if Less(b, a) && Less(a, b) {
      LessTransitive(a, b, a);
      LessIrreflexive(a);
    }
  }

  lemma AtMostTransitive(a: string, b: string, c: string)
    requires AtMost(a, b) && AtMost(b, c)
    ensures AtMost(a, c)
  {
    if Less(c, a) {
      LessTrichotomy(a, b);
      if a == b {
      } else if Less(a, b) {
        LessTransitive(c, a, b);
      }
    }
  }

  /** The prefix of `s` made only of digits. */
  function LeadingDigits(s: string): (r: string)
    ensures AllDigits(r) && r <= s
    ensures |r| < |s| ==> !IsDigit(s[|r|])
    decreases |s|
  {
    if s != [] && IsDigit(s[0]) then [s[0]] + LeadingDigits(s[1..]) else []
  }

  /**
   * `Number.parseInt(s)` for decimal text (the source passes no radix; a `0x` prefix is not modelled): leading white space is skipped, an optional sign is read,
   * then the longest run of digits; no digit at all gives NaN, here `None`.
   */
  function ParseInt(s: string): (r: Option<int>)
    ensures r.Some? <==> |LeadingDigits(UnsignedPart(TrimStart(s)))| > 0
  {
    var t := TrimStart(s);
    var digits := LeadingDigits(UnsignedPart(t));
    var magnitude: int := if digits == [] then 0 else DigitsValue(digits);
    if digits == [] then None
    else if t != [] && t[0] == '-' then Some(-magnitude)
    else Some(magnitude)
  }

  function UnsignedPart(t: string): string {
    if t != [] && (t[0] == '-' || t[0] == '+') then t[1..] else t
  }

  /** `parseInt` of a printed non-negative number gives the number back. */
  lemma ParseIntOfNatToString(n: nat)
    ensures ParseInt(NatToString(n)) == Some(n)
  {
    var s := NatToString(n);
    NatToStringDigits(n);
    DigitsValueOfNatToString(n);
    assert TrimStart(s) == s;
    assert UnsignedPart(s) == s;
    LeadingDigitsOfDigits(s);
  }

  /** `parseInt` of a non-empty digit string is its value. */
  lemma ParseIntOfDigits(s: string)
    requires s != [] && AllDigits(s)
    ensures ParseInt(s) == Some(DigitsValue(s))
  {
    assert TrimStart(s) == s;
    assert UnsignedPart(s) == s;
    LeadingDigitsOfDigits(s);
  }

  lemma ParseIntOfDigitPair(h: string, m: string)
    requires h != [] && m != [] && AllDigits(h) && AllDigits(m)
    ensures ParseInt(h) == Some(DigitsValue(h)) && ParseInt(m) == Some(DigitsValue(m))
  {
    ParseIntOfDigits(h);
    ParseIntOfDigits(m);
  }

  lemma {:induction false} LeadingDigitsOfDigits(s: string)
    requires AllDigits(s)
    ensures LeadingDigits(s) == s
    decreases |s|
  {
    if s != [] {
      LeadingDigitsOfDigits(s[1..]);
    }
  }
}
