/**
 * The handful of Python string built-ins the core relies on, restricted to
 * what the model needs: ASCII `upper()`/`lower()`, `str(int)`, the decimal
 * subset of `int(str)`, `" ".join(...)`, and the `in` substring test.
 */
module Text {
  import opened Wrappers

  // ---------------------------------------------------------------------
  // ASCII case mapping (`str.upper`, `str.lower` on ASCII letters)
  // ---------------------------------------------------------------------

  function UpperChar(c: char): char {
    if 'a' <= c <= 'z' then (c as int - 32) as char else c
  }

  function LowerChar(c: char): char {
    if 'A' <= c <= 'Z' then (c as int + 32) as char else c
  }

  /** `s.upper()`: maps every character, keeps the length. */
  function Upper(s: string): (r: string)
    ensures |r| == |s|
    ensures forall i :: 0 <= i < |s| ==> r[i] == UpperChar(s[i])
  {
    if s == [] then [] else [UpperChar(s[0])] + Upper(s[1..])
  }

  /** `s.lower()`: maps every character, keeps the length. */
  function Lower(s: string): (r: string)
    ensures |r| == |s|
    ensures forall i :: 0 <= i < |s| ==> r[i] == LowerChar(s[i])
  {
    if s == [] then [] else [LowerChar(s[0])] + Lower(s[1..])
  }

  /** Upper-casing twice is upper-casing once. */
  lemma {:induction false} UpperIdempotent(s: string)
    ensures Upper(Upper(s)) == Upper(s)
  {
    if s != [] {
      UpperIdempotent(s[1..]);
      assert Upper(s)[1..] == Upper(s[1..]);
    }
  }

  /** A word upper-cases to w when each of its characters upper-cases to the matching one of w. */
  lemma UpperWord(k: string, w: string)
    requires |k| == |w|
    requires forall i :: 0 <= i < |k| ==> UpperChar(k[i]) == w[i]
    ensures Upper(k) == w
  {
    assert forall i :: 0 <= i < |k| ==> Upper(k)[i] == w[i];
  }

  // ---------------------------------------------------------------------
  // Decimal digits, `str(int)` and the decimal subset of `int(str)`
  // ---------------------------------------------------------------------

  predicate IsDigit(c: char) {
    '0' <= c <= '9'
  }

  predicate AllDigits(s: string) {
    forall i :: 0 <= i < |s| ==> IsDigit(s[i])
  }

  function DigitChar(d: nat): (c: char)
    requires d < 10
    ensures IsDigit(c)
  {
    ('0' as int + d) as char
  }

  /** The number a string of decimal digits denotes (leading zeros allowed). */
  function DigitsValue(s: string): nat
    requires AllDigits(s)
  {
    if s == [] then 0
    else 10 * DigitsValue(s[..|s| - 1]) + (s[|s| - 1] as int - '0' as int)
  }

  /** `str(n)` for n >= 0: the shortest decimal numeral. */
  function NatToString(n: nat): (r: string)
    ensures |r| >= 1 && AllDigits(r)
    decreases n
  {
    if n < 10 then [DigitChar(n)] else NatToString(n / 10) + [DigitChar(n % 10)]
  }

  /** `str(n)`: a minus sign, then the digits of |n|. */
  function IntToString(n: int): string {
    if n < 0 then "-" + NatToString(-n) else NatToString(n)
  }

  lemma {:induction false} NatToStringValue(n: nat)
    ensures DigitsValue(NatToString(n)) == n
    decreases n
  {
    if n >= 10 {
      var s := NatToString(n);
      assert s[..|s| - 1] == NatToString(n / 10);
      NatToStringValue(n / 10);
    }
  }

  /**
   * The whitespace `int()` skips around its digits: the ASCII space and
   * `\t\n\v\f\r`, and every non-ASCII character `str.isspace()` accepts
   * (those are turned into spaces before the digits are read). The ASCII
   * separators U+001C..U+001F are `str.isspace()` characters that `int()`
   * does not skip.
   */
  predicate IntSpace(c: char) {
    c == ' ' || ('\U{9}' <= c <= '\U{D}')
    || c == '\U{85}' || c == '\U{A0}' || c == '\U{1680}' || ('\U{2000}' <= c <= '\U{200A}')
    || c == '\U{2028}' || c == '\U{2029}' || c == '\U{202F}' || c == '\U{205F}' || c == '\U{3000}'
  }

  /** Drops the leading whitespace `int()` skips. */
  function StripLeft(s: string): string {
    if s != [] && IntSpace(s[0]) then StripLeft(s[1..]) else s
  }

  /** Drops the trailing whitespace `int()` skips. */
  function StripRight(s: string): string {
    if s != [] && IntSpace(s[|s| - 1]) then StripRight(s[..|s| - 1]) else s
  }

  /** Drops the whitespace `int()` skips at both ends. */
  function Strip(s: string): string {
    StripRight(StripLeft(s))
  }

  /** StripLeft keeps a suffix that does not start with whitespace, and drops only whitespace. */
  lemma {:induction false} StripLeftSuffix(s: string)
    ensures |StripLeft(s)| <= |s| && StripLeft(s) == s[|s| - |StripLeft(s)|..]
    ensures StripLeft(s) == [] || !IntSpace(StripLeft(s)[0])
    ensures forall i :: 0 <= i < |s| - |StripLeft(s)| ==> IntSpace(s[i])
  {
    if s != [] && IntSpace(s[0]) {
      var t := s[1..];
      var r := StripLeft(t);
      StripLeftSuffix(t);
      assert StripLeft(s) == r;
      assert s[|s| - |r|..] == t[|t| - |r|..];
      forall i | 0 <= i < |s| - |r|
        ensures IntSpace(s[i])
      {
        if i > 0 {
          assert s[i] == t[i - 1];
        }
      }
    } else {
      assert StripLeft(s) == s;
    }
  }

  /** StripRight keeps a prefix that does not end with whitespace, and drops only whitespace. */
  lemma {:induction false} StripRightPrefix(s: string)
    ensures |StripRight(s)| <= |s| && StripRight(s) == s[..|StripRight(s)|]
    ensures StripRight(s) == [] || !IntSpace(StripRight(s)[|StripRight(s)| - 1])
    ensures forall i :: |StripRight(s)| <= i < |s| ==> IntSpace(s[i])
  {
    if s != [] && IntSpace(s[|s| - 1]) {
      var t := s[..|s| - 1];
      var r := StripRight(t);
      StripRightPrefix(t);
      assert StripRight(s) == r;
      assert s[..|r|] == t[..|r|];
      forall i | |r| <= i < |s|
        ensures IntSpace(s[i])
      {
        if i < |t| {
          assert s[i] == t[i];
        }
      }
    } else {
      assert StripRight(s) == s;
    }
  }

  /** Strip leaves a string that neither starts nor ends with whitespace. */
  lemma StripEnds(s: string)
    ensures Strip(s) == [] || (!IntSpace(Strip(s)[0]) && !IntSpace(Strip(s)[|Strip(s)| - 1]))
  {
    StripLeftSuffix(s);
    StripRightPrefix(StripLeft(s));
    var l := StripLeft(s);
    var r := StripRight(l);
    if r != [] {
      assert r[0] == l[0];
    }
  }

  /**
   * `int(s)` for base 10: surrounding whitespace, an optional sign, then at
   * least one ASCII digit; anything else is a `ValueError` (None here).
   */
  function ParseInt(s: string): Option<int> {
    var t := Strip(s);
    if t != [] && (t[0] == '+' || t[0] == '-') then
      var digits := t[1..];
      if digits != [] && AllDigits(digits) then
        var magnitude: int := DigitsValue(digits);
        Some(if t[0] == '-' then -magnitude else magnitude)
      else None
    else if t != [] && AllDigits(t) then Some(DigitsValue(t))
    else None
  }

  /** `int(str(n)) == n`. */
  lemma ParseIntOfIntToString(n: int)
    ensures ParseInt(IntToString(n)) == Some(n)
  {
    var s := IntToString(n);
    if n < 0 {
      var d := NatToString(-n);
      assert s == "-" + d;
      StripUnpadded(s);
      assert s[1..] == d;
      NatToStringValue(-n);
    } else {
      var d := NatToString(n);
      StripUnpadded(d);
      NatToStringValue(n);
    }
  }

  /** A string that neither starts nor ends with whitespace is its own strip. */
  lemma StripUnpadded(s: string)
    requires s != [] && !IntSpace(s[0]) && !IntSpace(s[|s| - 1])
    ensures Strip(s) == s
  {
    assert StripLeft(s) == s;
  }

  /** Surrounding whitespace never changes what `int()` reads. */
  lemma ParseIntIgnoresPadding(pre: string, s: string, post: string)
    requires forall i :: 0 <= i < |pre| ==> IntSpace(pre[i])
    requires forall i :: 0 <= i < |post| ==> IntSpace(post[i])
    ensures ParseInt(pre + s + post) == ParseInt(s)
  {
    StripPadding(pre, s, post);
  }

  lemma {:induction false} StripLeftPadding(pre: string, s: string)
    requires forall i :: 0 <= i < |pre| ==> IntSpace(pre[i])
    ensures StripLeft(pre + s) == StripLeft(s)
  {
    if pre != [] {
      var t := pre + s;
      assert t[0] == pre[0] && IntSpace(t[0]);
      assert t[1..] == pre[1..] + s;
      StripLeftPadding(pre[1..], s);
      assert StripLeft(t) == StripLeft(t[1..]);
    } else {
      assert pre + s == s;
    }
  }

  lemma {:induction false} StripRightPadding(s: string, post: string)
    requires forall i :: 0 <= i < |post| ==> IntSpace(post[i])
    ensures StripRight(s + post) == StripRight(s)
  {
    if post != [] {
      var p := post[..|post| - 1];
      var t := s + post;
      assert t[|t| - 1] == post[|post| - 1] && IntSpace(t[|t| - 1]);
      assert t[..|t| - 1] == s + p;
      StripRightPadding(s, p);
      assert StripRight(t) == StripRight(t[..|t| - 1]);
    } else {
      assert s + post == s;
    }
  }

  lemma StripPadding(pre: string, s: string, post: string)
    requires forall i :: 0 <= i < |pre| ==> IntSpace(pre[i])
    requires forall i :: 0 <= i < |post| ==> IntSpace(post[i])
    ensures Strip(pre + s + post) == Strip(s)
  {
    assert pre + s + post == pre + (s + post);
    StripLeftPadding(pre, s + post);
    StripLeftAppend(s, post);
    var l := StripLeft(s);
    if l != [] {
      StripRightPadding(l, post);
    }
  }

  lemma {:induction false} StripLeftAppend(s: string, post: string)
    requires forall i :: 0 <= i < |post| ==> IntSpace(post[i])
    ensures StripLeft(s + post) == if StripLeft(s) == [] then [] else StripLeft(s) + post
  {
    if s == [] {
      StripLeftPadding(post, []);
      assert post + [] == post;
      assert StripLeft([]) == [];
      assert s + post == post;
    } else if IntSpace(s[0]) {
      var t := s + post;
      assert t[0] == s[0];
      assert t[1..] == s[1..] + post;
      StripLeftAppend(s[1..], post);
    } else {
      assert (s + post)[0] == s[0];
    }
  }

  // ---------------------------------------------------------------------
  // `" ".join(parts)` and its inverse `s.split(" ")`
  // ---------------------------------------------------------------------

  /** `" ".join(parts)`: one space between consecutive parts, none around. */
  function Join(parts: seq<string>): string {
    if parts == [] then ""
    else if |parts| == 1 then parts[0]
    else parts[0] + " " + Join(parts[1..])
  }

  /** `s.split(" ")`: the pieces between single spaces (`""` gives `[""]`). */
  function Split(s: string): (r: seq<string>)
    ensures |r| >= 1
    decreases |s|
  {
    if ' ' !in s then [s]
    else
      var i := IndexOf(s, ' ');
      [s[..i]] + Split(s[i + 1..])
  }

  /** Position of the first occurrence of c in s. */
  function IndexOf(s: string, c: char): (i: nat)
    requires c in s
    ensures i < |s| && s[i] == c && c !in s[..i]
  {
    if s[0] == c then 0 else 1 + IndexOf(s[1..], c)
  }

  /** The join is a space-free-parts round trip: `" ".join(p).split(" ") == p`. */
  lemma {:induction false} SplitJoin(parts: seq<string>)
    requires |parts| >= 1
    requires forall k :: 0 <= k < |parts| ==> ' ' !in parts[k]
    ensures Split(Join(parts)) == parts
  {
    if |parts| > 1 {
      var x, s := parts[0], Join(parts);
      assert s == x + " " + Join(parts[1..]);
      assert ' ' in s by { assert s[|x|] == ' '; }
      var i := IndexOf(s, ' ');
      assert s[..|x|] == x;
      assert i == |x|;
      assert s[..i] == x;
      assert s[i + 1..] == Join(parts[1..]);
      SplitJoin(parts[1..]);
    }
  }

  /** A non-empty join starts with its first part and ends with its last. */
  lemma {:induction false} JoinEnds(parts: seq<string>)
    requires |parts| >= 1
    ensures parts[0] <= Join(parts)
    ensures |parts[|parts| - 1]| <= |Join(parts)|
    ensures Join(parts)[|Join(parts)| - |parts[|parts| - 1]|..] == parts[|parts| - 1]
  {
    if |parts| > 1 {
      JoinEnds(parts[1..]);
      var tail := Join(parts[1..]);
      assert Join(parts) == parts[0] + " " + tail;
    }
  }

  /** A join of non-empty parts is empty exactly when there are no parts. */
  lemma JoinEmptyIff(parts: seq<string>)
    requires forall k :: 0 <= k < |parts| ==> parts[k] != []
    ensures Join(parts) == [] <==> parts == []
  {
    if parts != [] {
      JoinEnds(parts);
    }
  }

  // ---------------------------------------------------------------------
  // The `in` substring test
  // ---------------------------------------------------------------------

  /** `sub in s`. */
  predicate Contains(s: string, sub: string) {
    exists i :: 0 <= i <= |s| - |sub| && OccursAt(s, sub, i)
  }

  /** sub occurs in s starting at position i. */
  predicate OccursAt(s: string, sub: string, i: int) {
    0 <= i <= |s| - |sub| && s[i..i + |sub|] == sub
  }
}
