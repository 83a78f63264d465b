/**
 * The JavaScript string operations the forms and helpers rely on, with ECMAScript
 * semantics: `trim`, `indexOf` of one character, `substring` (clamping and swapping
 * its arguments), `split` on one character, `join`, `startsWith`, `includes`,
 * truthiness and `||` on strings, `Number.prototype.toString` on non-negative
 * integers, `parseInt` on digit strings, and the digit matches `/\d+/` and `/\d+/g`.
 */
module JsString {
  import opened Wrappers

  /** ECMAScript WhiteSpace and LineTerminator: what `trim` strips and `\s` matches. */
  predicate IsWhitespace(c: char) {
    c == '\t' || c == '\n' || c == '\U{B}' || c == '\U{C}' || c == '\r' || c == ' '
    || c == '\U{A0}' || c == '\U{1680}' || ('\U{2000}' <= c <= '\U{200A}')
    || c == '\U{2028}' || c == '\U{2029}' || c == '\U{202F}' || c == '\U{205F}'
    || c == '\U{3000}' || c == '\U{FEFF}'
  }

  /** The regular-expression class `\d`: ASCII digits only. */
  predicate IsDigit(c: char) {
    '0' <= c <= '9'
  }

  predicate AllDigits(s: string) {
    forall i | 0 <= i < |s| :: IsDigit(s[i])
  }

  predicate NoWhitespace(s: string) {
    forall i | 0 <= i < |s| :: !IsWhitespace(s[i])
  }

  /** A string that `trim` leaves as it is. */
  predicate Trimmed(s: string) {
    s == [] || (!IsWhitespace(s[0]) && !IsWhitespace(s[|s| - 1]))
  }

  /** JavaScript truthiness of a string: only the empty string is falsy. */
  predicate Truthy(s: string) {
    s != ""
  }

  /** `s || fallback` where `s` may be null or undefined. */
  function Or(s: Option<string>, fallback: string): (r: string)
    ensures (s.Some? && Truthy(s.value)) ==> r == s.value
    ensures !(s.Some? && Truthy(s.value)) ==> r == fallback
  {
    if s.Some? && Truthy(s.value) then s.value else fallback
  }

  // ---------------------------------------------------------------- trim

  /** String.prototype.trim: drop leading and trailing white space. */
  function Trim(s: string): (r: string)
    ensures Trimmed(r) && |r| <= |s|
    ensures r == [] <==> forall i | 0 <= i < |s| :: IsWhitespace(s[i])
    decreases |s|
  {
    if s != [] && IsWhitespace(s[0]) then
      var r := Trim(s[1..]);
      assert forall i | 1 <= i < |s| :: s[i] == s[1..][i - 1];
      r
    else if s != [] && IsWhitespace(s[|s| - 1]) then
      var r := Trim(s[..|s| - 1]);
      assert forall i | 0 <= i < |s| - 1 :: s[i] == s[..|s| - 1][i];
      r
    else
      s
  }

  /** `s[i..j]` is `s` with white space, and only white space, cut from both ends. */
  predicate WhitespaceAround(s: string, i: nat, j: nat) {
    && i <= j <= |s|
    && (forall k | 0 <= k < i :: IsWhitespace(s[k]))
    && (forall k | j <= k < |s| :: IsWhitespace(s[k]))
  }

  /**
   * `trim` removes only surrounding white space: its result is a slice of the input with
   * nothing but white space before and after it.
   */
  lemma {:induction false} TrimIsInfix(s: string)
    ensures exists i: nat, j: nat | WhitespaceAround(s, i, j) :: Trim(s) == s[i..j]
    decreases |s|
  {
    if s != [] && IsWhitespace(s[0]) {
      var t := s[1..];
      TrimIsInfix(t);
      var i: nat, j: nat :| WhitespaceAround(t, i, j) && Trim(t) == t[i..j];
      assert s == [s[0]] + t;
      WhitespaceAroundCons(s[0], t, i, j);
    } else if s != [] && IsWhitespace(s[|s| - 1]) {
      var t := s[..|s| - 1];
      TrimIsInfix(t);
      var i: nat, j: nat :| WhitespaceAround(t, i, j) && Trim(t) == t[i..j];
      assert s == t + [s[|s| - 1]];
      WhitespaceAroundSnoc(t, s[|s| - 1], i, j);
    } else {
      assert WhitespaceAround(s, 0, |s|) && s[0..|s|] == s;
    }
  }

  lemma WhitespaceAroundCons(c: char, t: string, i: nat, j: nat)
    requires IsWhitespace(c) && WhitespaceAround(t, i, j)
    ensures WhitespaceAround([c] + t, i + 1, j + 1) && ([c] + t)[i + 1..j + 1] == t[i..j]
  {
    var s := [c] + t;
    forall k | 1 <= k < |s| ensures s[k] == t[k - 1] {
    }
  }

  lemma WhitespaceAroundSnoc(t: string, c: char, i: nat, j: nat)
    requires IsWhitespace(c) && WhitespaceAround(t, i, j)
    ensures WhitespaceAround(t + [c], i, j) && (t + [c])[i..j] == t[i..j]
  {
    var s := t + [c];
    forall k | 0 <= k < |t| ensures s[k] == t[k] {
    }
  }

  /** `trim` changes a string exactly when it starts or ends with white space. */
  lemma TrimFixesExactlyTrimmed(s: string)
    ensures Trim(s) == s <==> Trimmed(s)
  {
  }

  lemma TrimIdempotent(s: string)
    ensures Trim(Trim(s)) == Trim(s)
  {
    TrimFixesExactlyTrimmed(Trim(s));
  }

  /** A leading white-space character does not survive `trim`. */
  lemma TrimSkipsLeadingWhitespace(c: char, t: string)
    requires IsWhitespace(c)
    ensures Trim([c] + t) == Trim(t)
  {
    assert ([c] + t)[1..] == t;
  }

  // ---------------------------------------------------------------- indexOf, substring

  /** `s.indexOf(c)`: the first position holding `c`, or -1 when there is none. */
  function IndexOf(s: string, c: char): (r: int)
    ensures -1 <= r < |s|
    ensures r == -1 <==> c !in s
    ensures r >= 0 ==> s[r] == c && c !in s[..r]
    decreases |s|
  {
    if s == [] then -1
    else if s[0] == c then 0
    else
      var k := IndexOf(s[1..], c);
      assert s[1..][..k + 1] == s[1..k + 2] && s[..k + 2] == [s[0]] + s[1..k + 2] by {
        if k >= 0 {
          assert s[..k + 2] == [s[0]] + s[1..][..k + 1];
        }
      }
      if k < 0 then -1 else k + 1
  }

  /** The first `c` of `b + [c] + s` is the one after `b` when `b` holds none. */
  lemma {:induction false} IndexOfAfter(b: string, c: char, s: string)
    requires c !in b
    ensures IndexOf(b + [c] + s, c) == |b|
    decreases |b|
  {
    var a := b + [c] + s;
    if b != [] {
      assert a[0] == b[0] && a[1..] == b[1..] + [c] + s;
      IndexOfAfter(b[1..], c, s);
    }
  }

  /** A `substring` argument: negative becomes 0, past the end becomes the length. */
  function ClampIndex(i: int, len: nat): (r: nat)
    ensures r <= len
    ensures 0 <= i <= len ==> r == i
    ensures i < 0 ==> r == 0
    ensures i > len ==> r == len
  {
    if i < 0 then 0 else if i > len then len else i
  }

  /** `s.substring(start, end)`: both arguments clamped, and swapped when start > end. */
  function Substring(s: string, start: int, end: int): (r: string)
    ensures |r| <= |s|
    ensures 0 <= start <= end <= |s| ==> r == s[start..end]
    ensures 0 <= end <= start <= |s| ==> r == s[end..start]
    ensures start <= 0 && 0 <= end <= |s| ==> r == s[..end]
    ensures 0 <= start <= |s| && |s| <= end ==> r == s[start..]
    ensures start <= 0 && end <= 0 ==> r == ""
    ensures start >= |s| && end >= |s| ==> r == ""
  {
    var a, b := ClampIndex(start, |s|), ClampIndex(end, |s|);
    if a <= b then s[a..b] else s[b..a]
  }

  lemma SubstringInRange(s: string, start: int, end: int)
    requires 0 <= start <= end <= |s|
    ensures Substring(s, start, end) == s[start..end]
  {
  }

  /** A bound below 0 acts as 0 and a bound past the end as the length. */
  lemma SubstringClamps(s: string, start: int, end: int)
    ensures Substring(s, start, end) == Substring(s, ClampIndex(start, |s|), ClampIndex(end, |s|))
  {
  }

  /** `substring` does not care in which order its bounds come. */
  lemma SubstringSymmetric(s: string, start: int, end: int)
    ensures Substring(s, start, end) == Substring(s, end, start)
  {
  }

  // ---------------------------------------------------------------- split, join

  /** `s.split(sep)` for a one-character separator: never empty. */
  function Split(s: string, sep: char): (parts: seq<string>)
    ensures |parts| >= 1
    ensures sep !in s ==> parts == [s]
    ensures sep in s ==> |parts| >= 2
    decreases |s|
  {
    var i := IndexOf(s, sep);
    if i < 0 then [s] else [s[..i]] + Split(s[i + 1..], sep)
  }

  /** `parts.join(sep)`. */
  function Join(parts: seq<string>, sep: string): (r: string)
    ensures |parts| == 0 ==> r == ""
    ensures |parts| >= 1 ==> StartsWith(r, parts[0])
    decreases |parts|
  {
    if |parts| == 0 then ""
    else if |parts| == 1 then parts[0]
    else parts[0] + sep + Join(parts[1..], sep)
  }

  /** Joining the pieces of a split with the same separator gives the string back. */
  lemma {:induction false} JoinSplit(s: string, sep: char)
    ensures Join(Split(s, sep), [sep]) == s
    decreases |s|
  {
    var i := IndexOf(s, sep);
    if i < 0 {
      assert Split(s, sep) == [s];
    } else {
      var rest := s[i + 1..];
      var tail := Split(rest, sep);
      assert Split(s, sep) == [s[..i]] + tail;
      JoinSplit(rest, sep);
      JoinCons(s[..i], tail, [sep]);
      SplitAround(s, i);
    }
  }

  lemma SplitAround(s: string, i: nat)
    requires i < |s|
    ensures s == s[..i] + [s[i]] + s[i + 1..]
  {
  }

  lemma JoinCons(head: string, tail: seq<string>, sep: string)
    requires |tail| >= 1
    ensures Join([head] + tail, sep) == head + sep + Join(tail, sep)
  {
    assert ([head] + tail)[1..] == tail;
  }

  /** `split(sep).shift()`: the text before the first separator, or all of it. */
  lemma SplitHead(s: string, sep: char)
    ensures Split(s, sep)[0] == if IndexOf(s, sep) < 0 then s else s[..IndexOf(s, sep)]
  {
  }

  /** `split(sep).slice(1).join(sep)`: the text after the first separator, or "". */
  lemma SplitTailJoin(s: string, sep: char)
    ensures IndexOf(s, sep) < 0 ==> Join(Split(s, sep)[1..], [sep]) == ""
    ensures IndexOf(s, sep) >= 0 ==> Join(Split(s, sep)[1..], [sep]) == s[IndexOf(s, sep) + 1..]
  {
    if IndexOf(s, sep) >= 0 {
      SplitTailJoinFound(s, sep);
    } else {
      assert Split(s, sep) == [s];
    }
  }

  lemma SplitTailJoinFound(s: string, sep: char)
    requires IndexOf(s, sep) >= 0
    ensures Join(Split(s, sep)[1..], [sep]) == s[IndexOf(s, sep) + 1..]
  {
    JoinSplit(s[IndexOf(s, sep) + 1..], sep);
    SplitTail(s, sep);
  }

  lemma SplitTail(s: string, sep: char)
    requires IndexOf(s, sep) >= 0
    ensures Split(s, sep)[1..] == Split(s[IndexOf(s, sep) + 1..], sep)
  {
    var i := IndexOf(s, sep);
    var tail := Split(s[i + 1..], sep);
    assert Split(s, sep) == [s[..i]] + tail;
    assert ([s[..i]] + tail)[1..] == tail;
  }

  // ---------------------------------------------------------------- startsWith, includes

  /** `s.startsWith(prefix)`. */
  predicate StartsWith(s: string, prefix: string) {
    |prefix| <= |s| && s[..|prefix|] == prefix
  }

  /** `prefix + rest` starts with `prefix`, and a string that starts with `prefix` is `prefix` followed by its rest. */
  lemma StartsWithExactly(s: string, prefix: string, rest: string)
    ensures StartsWith(prefix + rest, prefix)
    ensures StartsWith(s, prefix) ==> s == prefix + s[|prefix|..]
  {
    assert (prefix + rest)[..|prefix|] == prefix;
    if StartsWith(s, prefix) {
      assert s == s[..|prefix|] + s[|prefix|..];
    }
  }

  /** A prefix of a prefix is a prefix. */
  lemma StartsWithTransitive(s: string, p: string, q: string)
    requires StartsWith(s, p) && StartsWith(p, q)
    ensures StartsWith(s, q)
  {
    assert s[..|q|] == s[..|p|][..|q|];
  }

  /** `part` occurs in `s` starting at index `i`. */
  predicate OccursAt(s: string, part: string, i: nat) {
    i + |part| <= |s| && s[i..i + |part|] == part
  }

  /** `s.includes(part)`. */
  function Includes(s: string, part: string): (r: bool)
    ensures r <==> exists i: nat | i <= |s| :: OccursAt(s, part, i)
    decreases |s|
  {
    if StartsWith(s, part) then
      assert OccursAt(s, part, 0);
      true
    else if s == [] then
      false
    else
      var r := Includes(s[1..], part);
      assert r ==> exists i: nat | i <= |s| :: OccursAt(s, part, i) by {
        if r {
          var j: nat :| j <= |s[1..]| && OccursAt(s[1..], part, j);
          assert s[j + 1..j + 1 + |part|] == s[1..][j..j + |part|];
          assert OccursAt(s, part, j + 1);
        }
      }
      assert (exists i: nat | i <= |s| :: OccursAt(s, part, i)) ==> r by {
        if exists i: nat | i <= |s| :: OccursAt(s, part, i) {
          var i: nat :| i <= |s| && OccursAt(s, part, i);
          assert i != 0;
          assert s[1..][i - 1..i - 1 + |part|] == s[i..i + |part|];
          assert OccursAt(s[1..], part, i - 1);
        }
      }
      r
  }

  // ---------------------------------------------------------------- numbers as text

  function DigitValue(c: char): (d: nat)
    requires IsDigit(c)
    ensures d < 10
  {
    (c as int) - ('0' as int)
  }

  function DigitChar(d: nat): (c: char)
    requires d < 10
    ensures IsDigit(c) && DigitValue(c) == d
  {
    (('0' as int) + d) as char
  }

  /** `parseInt(s)` for a non-empty string of ASCII digits: its decimal value. */
  function DecimalValue(s: string): (r: nat)
    requires AllDigits(s)
    ensures r == 0 <==> forall i | 0 <= i < |s| :: s[i] == '0'
    decreases |s|
  {
    if s == [] then 0
    else
      var init := s[..|s| - 1];
      assert forall i | 0 <= i < |s| - 1 :: s[i] == init[i];
      DecimalValue(init) * 10 + DigitValue(s[|s| - 1])
  }

  /** `n.toString()` for a non-negative integer: decimal digits without leading zeros. */
  function NatToString(n: nat): (r: string)
    ensures |r| >= 1 && AllDigits(r)
    ensures r[0] == '0' ==> r == "0"
    decreases n
  {
    if n < 10 then [DigitChar(n)] else NatToString(n / 10) + [DigitChar(n % 10)]
  }

  /** The digit string with its leading zeros removed, keeping one digit. */
  function StripLeadingZeros(s: string): (r: string)
    decreases |s|
  {
    if |s| > 1 && s[0] == '0' then StripLeadingZeros(s[1..]) else s
  }

  /** Parsing the decimal text of a number gives the number back. */
  lemma {:induction false} DecimalValueOfNatToString(n: nat)
    ensures DecimalValue(NatToString(n)) == n
    decreases n
  {
    if n >= 10 {
      DecimalValueOfNatToString(n / 10);
      var s := NatToString(n);
      assert s[..|s| - 1] == NatToString(n / 10);
    }
  }

  lemma {:induction false} DecimalValueSkipsLeadingZero(s: string)
    requires AllDigits(s) && |s| >= 1 && s[0] == '0'
    ensures DecimalValue(s) == DecimalValue(s[1..])
    decreases |s|
  {
    if |s| > 1 {
      var init := s[..|s| - 1];
      DecimalValueSkipsLeadingZero(init);
      assert init[1..] == s[1..][..|s[1..]| - 1];
    }
  }

  lemma {:induction false} DecimalValuePositive(s: string)
    requires AllDigits(s) && |s| >= 1 && s[0] != '0'
    ensures DecimalValue(s) >= 1
    decreases |s|
  {
    if |s| > 1 {
      DecimalValuePositive(s[..|s| - 1]);
    }
  }

  lemma {:induction false} NatToStringOfDecimalValue(s: string)
    requires AllDigits(s) && |s| >= 1 && s[0] != '0'
    ensures NatToString(DecimalValue(s)) == s
    decreases |s|
  {
    if |s| > 1 {
      var init := s[..|s| - 1];
      NatToStringOfDecimalValue(init);
      DecimalValuePositive(init);
      var v := DecimalValue(s);
      assert v / 10 == DecimalValue(init);
      assert v % 10 == DigitValue(s[|s| - 1]);
      assert DigitChar(v % 10) == s[|s| - 1];
      assert s == init + [s[|s| - 1]];
    }
  }

  /** `parseInt` followed by `toString` drops the leading zeros of a digit string. */
  lemma {:induction false} ParseThenPrintStripsZeros(s: string)
    requires AllDigits(s) && |s| >= 1
    ensures NatToString(DecimalValue(s)) == StripLeadingZeros(s)
    decreases |s|
  {
    if |s| > 1 && s[0] == '0' {
      DecimalValueSkipsLeadingZero(s);
      ParseThenPrintStripsZeros(s[1..]);
    } else if s[0] == '0' {
      assert s == "0";
    } else {
      NatToStringOfDecimalValue(s);
    }
  }

  // ---------------------------------------------------------------- digit matches

  /** The maximal run of digits at the start of `s`. */
  function LeadingDigits(s: string): (r: string)
    ensures AllDigits(r) && StartsWith(s, r)
    ensures |r| == |s| || !IsDigit(s[|r|])
    decreases |s|
  {
    if s != [] && IsDigit(s[0]) then [s[0]] + LeadingDigits(s[1..]) else ""
  }

  /** `(s.match(/\d+/) ?? []).join("")`: the first maximal run of digits, or "". */
  function FirstDigitRun(s: string): (r: string)
    ensures AllDigits(r)
    ensures r == "" <==> forall i | 0 <= i < |s| :: !IsDigit(s[i])
    decreases |s|
  {
    if s == [] then ""
    else if IsDigit(s[0]) then LeadingDigits(s)
    else FirstDigitRun(s[1..])
  }

  /** The leading run of `a + b` is `a` when `a` is all digits and `b` does not start with one. */
  lemma {:induction false} LeadingDigitsOfRun(a: string, b: string)
    requires AllDigits(a) && (b == [] || !IsDigit(b[0]))
    ensures LeadingDigits(a + b) == a
    decreases |a|
  {
    if a == [] {
      assert a + b == b;
    } else {
      assert (a + b)[0] == a[0] && (a + b)[1..] == a[1..] + b;
      LeadingDigitsOfRun(a[1..], b);
    }
  }

  /** The first run starts at the first digit and takes every digit that follows it. */
  lemma {:induction false} FirstDigitRunAt(s: string, k: nat)
    requires k < |s| && IsDigit(s[k]) && forall i | 0 <= i < k :: !IsDigit(s[i])
    ensures FirstDigitRun(s) == LeadingDigits(s[k..])
    decreases k
  {
    if k > 0 {
      assert s[1..][k - 1..] == s[k..];
      FirstDigitRunAt(s[1..], k - 1);
    }
  }

  /** `(s.match(/\d+/g) ?? []).join("")`: every digit of `s`, in order. */
  function Digits(s: string): (r: string)
    ensures AllDigits(r) && |r| <= |s|
    decreases |s|
  {
    if s == [] then "" else (if IsDigit(s[0]) then [s[0]] else "") + Digits(s[1..])
  }

  lemma {:induction false} DigitsOfConcat(a: string, b: string)
    ensures Digits(a + b) == Digits(a) + Digits(b)
    decreases |a|
  {
    if a == [] {
      assert a + b == b;
    } else {
      assert (a + b)[0] == a[0] && (a + b)[1..] == a[1..] + b;
      DigitsOfConcat(a[1..], b);
      var h := if IsDigit(a[0]) then [a[0]] else "";
      assert Digits(a + b) == h + Digits(a[1..] + b);
      assert Digits(a) == h + Digits(a[1..]);
    }
  }

  lemma {:induction false} DigitsOfDigitString(s: string)
    requires AllDigits(s)
    ensures Digits(s) == s
    decreases |s|
  {
    if s != [] {
      DigitsOfDigitString(s[1..]);
    }
  }
}
