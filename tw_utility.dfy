/**
 * The helpers that the main-process and renderer copies of twUtility.ts share:
 * `isNullOrWhiteSpace`, the `range` generator and (main copy) `escapedRegex`.
 * `DateEx.toDateString` is in module DateEx.
 */
module TwUtility {
  import opened Wrappers
  import opened Text

  /** `input.toString().replace(/\s/g, '')`. */
  function RemoveWhiteSpace(s: string): (r: string)
    ensures |r| == 0 <==> IsBlank(s)
    decreases |s|
  {
    if s == [] then []
    else (if IsWhiteSpace(s[0]) then [] else [s[0]]) + RemoveWhiteSpace(s[1..])
  }

  /**
   * `isNullOrWhiteSpace`: true exactly for null/undefined (`None`) and for text
   * with no character outside `\s`, the empty string included.
   */
  function IsNullOrWhiteSpace(input: Option<string>): (r: bool)
    ensures r <==> input.None? || IsBlank(input.value)
    ensures input == Some("") ==> r
  {
    match input
    case None => true
    case Some(s) => |RemoveWhiteSpace(s)| < 1
  }

  /** The generator `range(from, to)`, drained: `while (from <= to) yield from++`. */
  method Range(first: int, last: int) returns (r: seq<int>)
    ensures |r| == if first <= last then last - first + 1 else 0
    ensures forall i :: 0 <= i < |r| ==> r[i] == first + i
  {
    r := [];
    var current := first;
    while current <= last
      decreases last - current
      invariant current == first + |r|
      invariant first <= last ==> current <= last + 1
      invariant first > last ==> r == []
      invariant forall i :: 0 <= i < |r| ==> r[i] == first + i
    {
      r := r + [current];
      current := current + 1;
    }
  }

  /** The characters of the class `[-\/\\^$*+?.()|[\]{}]`. */
  predicate IsRegexSpecial(c: char) {
    c in "-/\\^$*+?.()|[]{}"
  }

  /**
   * `string.replace(/[-\/\\^$*+?.()|[\]{}]/g, '\\$&')`, the text `escapedRegex`
   * hands to `new RegExp`.
   */
  function Escaped(s: string): string
    decreases |s|
  {
    if s == [] then []
    else (if IsRegexSpecial(s[0]) then ['\\', s[0]] else [s[0]]) + Escaped(s[1..])
  }

  function SpecialCount(s: string): nat
    decreases |s|
  {
    if s == [] then 0 else (if IsRegexSpecial(s[0]) then 1 else 0) + SpecialCount(s[1..])
  }

  /** Drops the backslash in front of every escaped character: the inverse of `Escaped`. */
  function Unescaped(s: string): string
    decreases |s|
  {
    if s == [] then []
    else if s[0] == '\\' && |s| >= 2 then [s[1]] + Unescaped(s[2..])
    else [s[0]] + Unescaped(s[1..])
  }

  /** Every special character gains exactly one backslash; nothing else is added. */
  lemma {:induction false} EscapedLength(s: string)
    ensures |Escaped(s)| == |s| + SpecialCount(s)
    decreases |s|
  {
    if s != [] {
      EscapedLength(s[1..]);
    }
  }

  /** Escaping works character by character, so it distributes over concatenation. */
  lemma {:induction false} EscapedAppend(a: string, b: string)
    ensures Escaped(a + b) == Escaped(a) + Escaped(b)
    decreases |a|
  {
    if a == [] {
      assert a + b == b;
    } else {
      assert (a + b)[0] == a[0] && (a + b)[1..] == a[1..] + b;
      EscapedAppend(a[1..], b);
    }
  }

  /** Removing the escapes gives back the original text, in the original order. */
  lemma {:induction false} UnescapedEscaped(s: string)
    ensures Unescaped(Escaped(s)) == s
    decreases |s|
  {
    if s != [] {
      UnescapedEscaped(s[1..]);
      var head := if IsRegexSpecial(s[0]) then ['\\', s[0]] else [s[0]];
      assert Escaped(s) == head + Escaped(s[1..]);
      if IsRegexSpecial(s[0]) {
        assert Escaped(s)[2..] == Escaped(s[1..]);
      } else {
        assert s[0] != '\\';
        assert Escaped(s)[1..] == Escaped(s[1..]);
      }
      assert s == [s[0]] + s[1..];
    }
  }

  /** Text without special characters is left exactly as it is. */
  lemma {:induction false} EscapedPlain(s: string)
    requires SpecialCount(s) == 0
    ensures Escaped(s) == s
    decreases |s|
  {
    if s != [] {
      EscapedPlain(s[1..]);
      assert s == [s[0]] + s[1..];
    }
  }
}
