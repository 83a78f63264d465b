/**
 * The field rules of the company and location forms, written as predicates: the
 * length limits, the ZIP and state rules, the year range, and the phone pattern
 * `^(1|\+1)?(?:-|\s)?\(?(\d{3})\)?(?:\s|-)?(\d{3})(?:-|\s)?(\d{4})$`.
 */
module FormRules {
  import opened JsString

  /** `z.string().min(lo).max(hi)`. */
  predicate LengthBetween(s: string, lo: nat, hi: nat) {
    lo <= |s| <= hi
  }

  /** A required text field: `.min(1).max(100)`. */
  predicate RequiredText(s: string) {
    LengthBetween(s, 1, 100)
  }

  /** An optional text field: `.max(100)`. */
  predicate OptionalText(s: string) {
    |s| <= 100
  }

  /** `/^\d+$/`: one digit or more, and nothing else. */
  predicate DigitsOnly(s: string) {
    |s| >= 1 && AllDigits(s)
  }

  /** `.length(5).regex(/^\d+$/)`. */
  predicate ZipRule(s: string) {
    |s| == 5 && DigitsOnly(s)
  }

  /** `.length(2)`. */
  predicate StateLengthRule(s: string) {
    |s| == 2
  }

  /** `.length(2).refine(val => states.includes(val))`. */
  predicate KnownStateRule(s: string, states: seq<string>) {
    |s| == 2 && s in states
  }

  /** `.gte(1900).lte(currentYear)`. */
  predicate YearRule(year: int, currentYear: int) {
    1900 <= year <= currentYear
  }

  /** `.min(1).regex(phoneRegex)`. */
  predicate PhoneRule(s: string) {
    |s| >= 1 && PhonePattern(s)
  }

  /** The ZIP rule accepts exactly the five-character strings of ASCII digits. */
  lemma ZipRuleExactly(s: string)
    ensures ZipRule(s) <==> |s| == 5 && forall i | 0 <= i < |s| :: '0' <= s[i] <= '9'
  {
  }

  /** The state rule asks for two characters and a listed state code. */
  lemma KnownStateRuleExactly(s: string, states: seq<string>)
    ensures KnownStateRule(s, states) <==> |s| == 2 && exists i | 0 <= i < |states| :: states[i] == s
  {
  }

  /** `parseInt` applied to an accepted ZIP. */
  function ParsedZip(s: string): (r: nat)
    requires ZipRule(s)
    ensures NatToString(r) == StripLeadingZeros(s)
  {
    ParseThenPrintStripsZeros(s);
    DecimalValue(s)
  }

  /** The stored ZIP, `parseInt(zip).toString()`, is the ZIP without its leading zeros. */
  lemma StoredZipDropsLeadingZeros(s: string)
    requires ZipRule(s)
    ensures NatToString(ParsedZip(s)) == StripLeadingZeros(s)
    ensures s[0] != '0' ==> NatToString(ParsedZip(s)) == s
  {
    ParseThenPrintStripsZeros(s);
  }

  lemma StoredZipExample()
    ensures ZipRule("02134") && NatToString(ParsedZip("02134")) == "2134"
  {
    StoredZipDropsLeadingZeros("02134");
    assert StripLeadingZeros("02134") == StripLeadingZeros("2134");
  }

  // ---------------------------------------------------------------- the phone pattern

  /** `-` or `\s`: the optional separator between the parts of a phone number. */
  predicate IsSeparator(c: char) {
    c == '-' || IsWhitespace(c)
  }

  /** The whole pattern: an optional `1` or `+1`, then the rest. */
  predicate PhonePattern(s: string) {
    || AfterCountryCode(s)
    || (|s| >= 1 && s[0] == '1' && AfterCountryCode(s[1..]))
    || (|s| >= 2 && s[0] == '+' && s[1] == '1' && AfterCountryCode(s[2..]))
  }

  /** `(?:-|\s)?\(?(\d{3})\)?…`. */
  predicate AfterCountryCode(s: string) {
    AreaCode(s) || (|s| >= 1 && IsSeparator(s[0]) && AreaCode(s[1..]))
  }

  /** `\(?(\d{3})\)?…`: the opening parenthesis is optional on its own. */
  predicate AreaCode(s: string) {
    AreaDigits(s) || (|s| >= 1 && s[0] == '(' && AreaDigits(s[1..]))
  }

  /** `(\d{3})\)?…`. */
  predicate AreaDigits(s: string) {
    |s| >= 3 && AllDigits(s[..3]) && AfterAreaDigits(s[3..])
  }

  /** `\)?(?:\s|-)?…`: the closing parenthesis is optional on its own. */
  predicate AfterAreaDigits(s: string) {
    AfterAreaCode(s) || (|s| >= 1 && s[0] == ')' && AfterAreaCode(s[1..]))
  }

  /** `(?:\s|-)?(\d{3})…`. */
  predicate AfterAreaCode(s: string) {
    Exchange(s) || (|s| >= 1 && IsSeparator(s[0]) && Exchange(s[1..]))
  }

  /** `(\d{3})(?:-|\s)?(\d{4})$`. */
  predicate Exchange(s: string) {
    |s| >= 3 && AllDigits(s[..3]) && AfterExchange(s[3..])
  }

  /** `(?:-|\s)?(\d{4})$`. */
  predicate AfterExchange(s: string) {
    LineNumber(s) || (|s| >= 1 && IsSeparator(s[0]) && LineNumber(s[1..]))
  }

  /** `(\d{4})$`. */
  predicate LineNumber(s: string) {
    |s| == 4 && AllDigits(s)
  }

  lemma SkipNonDigit(s: string)
    requires |s| >= 1 && !IsDigit(s[0])
    ensures Digits(s) == Digits(s[1..])
  {
  }

  lemma SplitThreeDigits(s: string)
    requires |s| >= 3 && AllDigits(s[..3])
    ensures Digits(s) == s[..3] + Digits(s[3..])
  {
    assert s == s[..3] + s[3..];
    DigitsOfConcat(s[..3], s[3..]);
    DigitsOfDigitString(s[..3]);
  }

  lemma AfterExchangeDigits(s: string)
    requires AfterExchange(s)
    ensures |Digits(s)| == 4
  {
    if LineNumber(s) {
      DigitsOfDigitString(s);
    } else {
      SkipNonDigit(s);
      DigitsOfDigitString(s[1..]);
    }
  }

  lemma ExchangeDigits(s: string)
    requires Exchange(s)
    ensures |Digits(s)| == 7
  {
    SplitThreeDigits(s);
    AfterExchangeDigits(s[3..]);
  }

  lemma AfterAreaDigitsDigits(s: string)
    requires AfterAreaDigits(s)
    ensures |Digits(s)| == 7
  {
    if AfterAreaCode(s) {
      AfterAreaCodeDigits(s);
    } else {
      SkipNonDigit(s);
      AfterAreaCodeDigits(s[1..]);
    }
  }

  lemma AfterAreaCodeDigits(s: string)
    requires AfterAreaCode(s)
    ensures |Digits(s)| == 7
  {
    if Exchange(s) {
      ExchangeDigits(s);
    } else {
      SkipNonDigit(s);
      ExchangeDigits(s[1..]);
    }
  }

  lemma AreaCodeDigits(s: string)
    requires AreaCode(s)
    ensures |Digits(s)| == 10
  {
    var t := if AreaDigits(s) then s else s[1..];
    if !AreaDigits(s) {
      SkipNonDigit(s);
    }
    SplitThreeDigits(t);
    AfterAreaDigitsDigits(t[3..]);
  }

  lemma AfterCountryCodeDigits(s: string)
    requires AfterCountryCode(s)
    ensures |Digits(s)| == 10
  {
    if AreaCode(s) {
      AreaCodeDigits(s);
    } else {
      SkipNonDigit(s);
      AreaCodeDigits(s[1..]);
    }
  }

  /**
   * An accepted phone number holds ten digits, or eleven of which the first is the
   * country code 1; so it is at least ten characters long, and `.min(1)` adds nothing.
   */
  lemma PhoneDigits(s: string)
    requires PhoneRule(s)
    ensures |Digits(s)| == 10 || (|Digits(s)| == 11 && Digits(s)[0] == '1')
    ensures |s| >= 10
  {
    if AfterCountryCode(s) {
      AfterCountryCodeDigits(s);
    } else if s[0] == '1' {
      AfterCountryCodeDigits(s[1..]);
      assert Digits(s) == ['1'] + Digits(s[1..]);
    } else {
      AfterCountryCodeDigits(s[2..]);
      SkipNonDigit(s);
      assert s[1..][1..] == s[2..];
      assert Digits(s[1..]) == ['1'] + Digits(s[2..]);
    }
  }

  // ---------------------------------------------------------------- what the pattern accepts

  /** An optional separator: nothing, or one hyphen or white-space character. */
  predicate OptionalSeparator(s: string) {
    s == "" || (|s| == 1 && IsSeparator(s[0]))
  }

  /** A group of exactly `n` ASCII digits. */
  predicate DigitGroup(s: string, n: nat) {
    |s| == n && AllDigits(s)
  }

  lemma AfterExchangeOf(sep: string, c: string)
    requires OptionalSeparator(sep) && DigitGroup(c, 4)
    ensures AfterExchange(sep + c)
  {
    if sep == "" {
      assert sep + c == c;
    } else {
      assert (sep + c)[1..] == c;
    }
  }

  lemma ExchangeOf(b: string, rest: string)
    requires DigitGroup(b, 3) && AfterExchange(rest)
    ensures Exchange(b + rest)
  {
    assert (b + rest)[..3] == b && (b + rest)[3..] == rest;
  }

  lemma AfterAreaCodeOf(sep: string, rest: string)
    requires OptionalSeparator(sep) && Exchange(rest)
    ensures AfterAreaCode(sep + rest)
  {
    if sep == "" {
      assert sep + rest == rest;
    } else {
      assert (sep + rest)[1..] == rest;
    }
  }

  lemma AfterAreaDigitsOf(close: string, rest: string)
    requires (close == "" || close == ")") && AfterAreaCode(rest)
    ensures AfterAreaDigits(close + rest)
  {
    if close == "" {
      assert close + rest == rest;
    } else {
      assert (close + rest)[1..] == rest;
    }
  }

  lemma AreaDigitsOf(a: string, rest: string)
    requires DigitGroup(a, 3) && AfterAreaDigits(rest)
    ensures AreaDigits(a + rest)
  {
    assert (a + rest)[..3] == a && (a + rest)[3..] == rest;
  }

  lemma AreaCodeOf(open: string, rest: string)
    requires (open == "" || open == "(") && AreaDigits(rest)
    ensures AreaCode(open + rest)
  {
    if open == "" {
      assert open + rest == rest;
    } else {
      assert (open + rest)[1..] == rest;
    }
  }

  lemma AfterCountryCodeOf(sep: string, rest: string)
    requires OptionalSeparator(sep) && AreaCode(rest)
    ensures AfterCountryCode(sep + rest)
  {
    if sep == "" {
      assert sep + rest == rest;
    } else {
      assert (sep + rest)[1..] == rest;
    }
  }

  lemma PhonePatternOf(prefix: string, rest: string)
    requires (prefix == "" || prefix == "1" || prefix == "+1") && AfterCountryCode(rest)
    ensures PhonePattern(prefix + rest)
  {
    if prefix == "" {
      assert prefix + rest == rest;
    } else if prefix == "1" {
      assert (prefix + rest)[0] == '1' && (prefix + rest)[1..] == rest;
    } else {
      assert (prefix + rest)[..2] == "+1" && (prefix + rest)[2..] == rest;
    }
  }

  /** The parts of a phone number the pattern admits, each in the form the pattern allows. */
  predicate PhoneParts(prefix: string, sep0: string, open: string, a: string, close: string,
                       sep1: string, b: string, sep2: string, c: string) {
    && (prefix == "" || prefix == "1" || prefix == "+1")
    && OptionalSeparator(sep0) && OptionalSeparator(sep1) && OptionalSeparator(sep2)
    && (open == "" || open == "(") && (close == "" || close == ")")
    && DigitGroup(a, 3) && DigitGroup(b, 3) && DigitGroup(c, 4)
  }

  /** The parts written one after the other. */
  function PhoneOf(prefix: string, sep0: string, open: string, a: string, close: string,
                   sep1: string, b: string, sep2: string, c: string): string {
    prefix + (sep0 + (open + (a + (close + (sep1 + (b + (sep2 + c)))))))
  }

  /**
   * The phone rule accepts every number made of an optional `1` or `+1`, an optional
   * separator, a three-digit area code with an optional `(` before it and an optional `)`
   * after it, an optional separator, three digits, an optional separator and four digits.
   */
  lemma PhoneAcceptsGroups(s: string, prefix: string, sep0: string, open: string, a: string, close: string,
                           sep1: string, b: string, sep2: string, c: string)
    requires PhoneParts(prefix, sep0, open, a, close, sep1, b, sep2, c)
    requires s == PhoneOf(prefix, sep0, open, a, close, sep1, b, sep2, c)
    ensures PhoneRule(s)
  {
    AfterExchangeOf(sep2, c);
    ExchangeOf(b, sep2 + c);
    AfterAreaCodeOf(sep1, b + (sep2 + c));
    AfterAreaDigitsOf(close, sep1 + (b + (sep2 + c)));
    AreaDigitsOf(a, close + (sep1 + (b + (sep2 + c))));
    AreaCodeOf(open, a + (close + (sep1 + (b + (sep2 + c)))));
    AfterCountryCodeOf(sep0, open + (a + (close + (sep1 + (b + (sep2 + c))))));
    PhonePatternOf(prefix, sep0 + (open + (a + (close + (sep1 + (b + (sep2 + c)))))));
  }

  /** `s` is its first character, as a one-character string, followed by the rest. */
  lemma FirstCharacter(s: string)
    requires |s| >= 1
    ensures |s[..1]| == 1 && s[..1][0] == s[0] && s == s[..1] + s[1..]
  {
  }

  lemma AfterExchangeParts(s: string) returns (sep: string, c: string)
    requires AfterExchange(s)
    ensures OptionalSeparator(sep) && DigitGroup(c, 4) && s == sep + c
  {
    if LineNumber(s) {
      sep, c := "", s;
    } else {
      FirstCharacter(s);
      sep, c := s[..1], s[1..];
    }
  }

  lemma ExchangeParts(s: string) returns (b: string, rest: string)
    requires Exchange(s)
    ensures DigitGroup(b, 3) && AfterExchange(rest) && s == b + rest
  {
    b, rest := s[..3], s[3..];
  }

  lemma AfterAreaCodeParts(s: string) returns (sep: string, rest: string)
    requires AfterAreaCode(s)
    ensures OptionalSeparator(sep) && Exchange(rest) && s == sep + rest
  {
    if Exchange(s) {
      sep, rest := "", s;
    } else {
      FirstCharacter(s);
      sep, rest := s[..1], s[1..];
    }
  }

  lemma AfterAreaDigitsParts(s: string) returns (close: string, rest: string)
    requires AfterAreaDigits(s)
    ensures (close == "" || close == ")") && AfterAreaCode(rest) && s == close + rest
  {
    if AfterAreaCode(s) {
      close, rest := "", s;
    } else {
      FirstCharacter(s);
      close, rest := s[..1], s[1..];
      assert close == [')'];
    }
  }

  lemma AreaDigitsParts(s: string) returns (a: string, rest: string)
    requires AreaDigits(s)
    ensures DigitGroup(a, 3) && AfterAreaDigits(rest) && s == a + rest
  {
    a, rest := s[..3], s[3..];
  }

  lemma AreaCodeParts(s: string) returns (open: string, rest: string)
    requires AreaCode(s)
    ensures (open == "" || open == "(") && AreaDigits(rest) && s == open + rest
  {
    if AreaDigits(s) {
      open, rest := "", s;
    } else {
      FirstCharacter(s);
      open, rest := s[..1], s[1..];
      assert open == ['('];
    }
  }

  lemma AfterCountryCodeParts(s: string) returns (sep: string, rest: string)
    requires AfterCountryCode(s)
    ensures OptionalSeparator(sep) && AreaCode(rest) && s == sep + rest
  {
    if AreaCode(s) {
      sep, rest := "", s;
    } else {
      FirstCharacter(s);
      sep, rest := s[..1], s[1..];
    }
  }

  lemma PhonePatternParts(s: string) returns (prefix: string, rest: string)
    requires PhonePattern(s)
    ensures (prefix == "" || prefix == "1" || prefix == "+1") && AfterCountryCode(rest) && s == prefix + rest
  {
    if AfterCountryCode(s) {
      prefix, rest := "", s;
    } else if |s| >= 1 && s[0] == '1' && AfterCountryCode(s[1..]) {
      FirstCharacter(s);
      prefix, rest := s[..1], s[1..];
      assert prefix == ['1'];
    } else {
      prefix, rest := s[..2], s[2..];
      assert prefix == [s[0], s[1]];
      assert s == prefix + rest;
    }
  }

  /**
   * Conversely, every accepted number comes apart into these parts: the pattern admits
   * nothing beyond them.
   */
  lemma PhoneRuleHasGroups(s: string)
    requires PhoneRule(s)
    ensures exists prefix, sep0, open, a, close, sep1, b, sep2, c ::
      PhoneParts(prefix, sep0, open, a, close, sep1, b, sep2, c)
      && s == PhoneOf(prefix, sep0, open, a, close, sep1, b, sep2, c)
  {
    var prefix, r0 := PhonePatternParts(s);
    var sep0, r1 := AfterCountryCodeParts(r0);
    var open, r2 := AreaCodeParts(r1);
    var a, r3 := AreaDigitsParts(r2);
    var close, r4 := AfterAreaDigitsParts(r3);
    var sep1, r5 := AfterAreaCodeParts(r4);
    var b, r6 := ExchangeParts(r5);
    var sep2, c := AfterExchangeParts(r6);
    assert PhoneParts(prefix, sep0, open, a, close, sep1, b, sep2, c);
    assert s == PhoneOf(prefix, sep0, open, a, close, sep1, b, sep2, c);
  }

  /** The phone rule accepts exactly the numbers made of the parts above. */
  lemma PhoneRuleExactly(s: string)
    ensures PhoneRule(s) <==> exists prefix, sep0, open, a, close, sep1, b, sep2, c ::
      PhoneParts(prefix, sep0, open, a, close, sep1, b, sep2, c)
      && s == PhoneOf(prefix, sep0, open, a, close, sep1, b, sep2, c)
  {
    if PhoneRule(s) {
      PhoneRuleHasGroups(s);
    } else if exists prefix, sep0, open, a, close, sep1, b, sep2, c ::
      PhoneParts(prefix, sep0, open, a, close, sep1, b, sep2, c)
      && s == PhoneOf(prefix, sep0, open, a, close, sep1, b, sep2, c)
    {
      var prefix, sep0, open, a, close, sep1, b, sep2, c :|
        PhoneParts(prefix, sep0, open, a, close, sep1, b, sep2, c)
        && s == PhoneOf(prefix, sep0, open, a, close, sep1, b, sep2, c);
      PhoneAcceptsGroups(s, prefix, sep0, open, a, close, sep1, b, sep2, c);
      assert false;
    }
  }

  /** Three groups separated by hyphens, without country code or parentheses. */
  lemma PhoneAcceptsHyphenated()
    ensures PhoneRule("555-123-4567")
  {
    PhoneAcceptsGroups("555-123-4567", "", "", "", "555", "", "-", "123", "-", "4567");
  }

  /** Parentheses around the area code. */
  lemma PhoneAcceptsParentheses()
    ensures PhoneRule("(555) 123-4567")
  {
    PhoneAcceptsGroups("(555) 123-4567", "", "", "(", "555", ")", " ", "123", "-", "4567");
  }

  /** Each parenthesis of the area code is optional on its own. */
  lemma PhoneAcceptsOpeningParenthesisOnly()
    ensures PhoneRule("(555 123-4567")
  {
    PhoneAcceptsGroups("(555 123-4567", "", "", "(", "555", "", " ", "123", "-", "4567");
  }

  /** The country code written `+1`, with a hyphen after it. */
  lemma PhoneAcceptsPlusOne()
    ensures PhoneRule("+1-5551234567")
  {
    PhoneAcceptsGroups("+1-5551234567", "+1", "-", "", "555", "", "", "123", "", "4567");
  }

  /** The country code written `1`, with no separators at all. */
  lemma PhoneAcceptsPlainDigits()
    ensures PhoneRule("15551234567")
  {
    PhoneAcceptsGroups("15551234567", "1", "", "", "555", "", "", "123", "", "4567");
  }

  /** Seven digits are not a phone number. */
  lemma PhoneRejectsLocalNumber()
    ensures !PhoneRule("555-1234")
  {
    var short := "555-1234";
    assert |short| < 10;
    if PhoneRule(short) {
      PhoneDigits(short);
    }
  }
}
