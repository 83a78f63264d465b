/**
 * The display helpers for a stored company: its street address, its full postal
 * address, and its representative's phone number in the form `(AAA) BBB-CCCC`.
 */
module CompanyUtils {
  import opened Wrappers
  import opened JsString
  import opened CompanyModel
  import opened FormRules

  const AddressMissing: string := "Could not get company address..."
  const PhoneMissing: string := "Could not get phone number..."

  /** `${buildingNumber ?? ""} ${street ?? ""}`: building and street around one space. */
  function StreetAddress(c: Company): (r: string)
    ensures |r| == |c.buildingNumber.GetOr("")| + 1 + |c.street.GetOr("")|
    ensures r[|c.buildingNumber.GetOr("")|] == ' '
    ensures r[..|c.buildingNumber.GetOr("")|] == c.buildingNumber.GetOr("")
    ensures r[|c.buildingNumber.GetOr("")| + 1..] == c.street.GetOr("")
  {
    c.buildingNumber.GetOr("") + " " + c.street.GetOr("")
  }

  /** The guard of `getFullAddress`: no company, or one of the five address columns null. */
  predicate AddressIncomplete(c: Option<Company>) {
    || c.None?
    || c.value.buildingNumber.None?
    || c.value.street.None?
    || c.value.city.None?
    || c.value.state.None?
    || c.value.zip.None?
  }

  /** `getFullAddress`: `street address, city, state zip`, or the fixed message. */
  function FullAddress(c: Option<Company>): (r: string)
    ensures AddressIncomplete(c) ==> r == AddressMissing
    ensures !AddressIncomplete(c) ==> StartsWith(r, StreetAddress(c.value) + ", ")
  {
    if AddressIncomplete(c) then AddressMissing
    else
      var co := c.value;
      StreetAddress(co) + ", " + co.city.GetOr("") + ", " + co.state.GetOr("") + " " + co.zip.GetOr("")
  }

  /**
   * The message comes back exactly when a column is missing: a complete address holds a
   * comma right after the street address, and the message holds none.
   */
  lemma FullAddressMessageExactly(c: Option<Company>)
    ensures FullAddress(c) == AddressMissing <==> AddressIncomplete(c)
  {
    if !AddressIncomplete(c) {
      var sa := StreetAddress(c.value);
      assert FullAddress(c)[|sa|] == ',';
      assert forall i | 0 <= i < |AddressMissing| :: AddressMissing[i] != ',';
    }
  }

  /** A complete address starts with the street address and ends with the ZIP. */
  lemma FullAddressParts(c: Company)
    requires !AddressIncomplete(Some(c))
    ensures StartsWith(FullAddress(Some(c)), StreetAddress(c) + ", " + c.city.value + ", ")
    ensures |FullAddress(Some(c))| == |StreetAddress(c)| + |c.city.value| + |c.state.value| + |c.zip.value| + 5
    ensures FullAddress(Some(c))[|FullAddress(Some(c))| - |c.zip.value|..] == c.zip.value
    ensures FullAddress(Some(c)) == StreetAddress(c) + ", " + c.city.value + ", " + c.state.value + " " + c.zip.value
  {
    var prefix := StreetAddress(c) + ", " + c.city.value + ", ";
    var rest := c.state.value + " " + c.zip.value;
    assert FullAddress(Some(c)) == prefix + rest;
    assert (prefix + rest)[..|prefix|] == prefix;
  }

  // ---------------------------------------------------------------- the phone number

  function Max0(x: int): nat {
    if x < 0 then 0 else x
  }

  /** The three `substring`s of the phone formatter around `(`, `) ` and `-`. */
  function FormatPhoneDigits(raw: string): (r: string)
    ensures |r| == 4 + (if |raw| < 10 then |raw| else 10)
    ensures r[0] == '(' && r[|r| - 1 - (if |raw| < 4 then |raw| else 4)] == '-'
  {
    var n := |raw|;
    assert |Substring(raw, n - 10, n - 7)| + |Substring(raw, n - 7, n - 4)| + |Substring(raw, n - 4, n)|
      == if n < 10 then n else 10;
    "(" + Substring(raw, n - 10, n - 7) + ") " + Substring(raw, n - 7, n - 4) + "-" + Substring(raw, n - 4, n)
  }

  /**
   * The groups are at most 3, 3 and 4 characters long and together are the last ten
   * characters of the digits, or all of them when there are fewer.
   */
  lemma FormatPhoneDigitsShape(raw: string)
    ensures var n := |raw|;
      var lo, m1, m2 := Max0(n - 10), Max0(n - 7), Max0(n - 4);
      && lo <= m1 <= m2 <= n
      && FormatPhoneDigits(raw) == "(" + raw[lo..m1] + ") " + raw[m1..m2] + "-" + raw[m2..]
      && m1 - lo <= 3 && m2 - m1 <= 3 && n - m2 <= 4
      && raw[lo..m1] + raw[m1..m2] + raw[m2..] == raw[lo..]
      && |raw[lo..]| == if n < 10 then n else 10
  {
    var n := |raw|;
    var lo, m1, m2 := Max0(n - 10), Max0(n - 7), Max0(n - 4);
    assert Substring(raw, n - 10, n - 7) == raw[lo..m1];
    assert Substring(raw, n - 7, n - 4) == raw[m1..m2];
    assert Substring(raw, n - 4, n) == raw[m2..];
    assert raw[lo..m1] + raw[m1..m2] == raw[lo..m2];
    assert raw[lo..m2] + raw[m2..] == raw[lo..];
  }

  /** `getPhoneFormatted` as written: the digits come from the first run of digits only. */
  function PhoneFormatted(c: Option<Company>): (r: string)
    ensures c.None? || c.value.repPhone.None? ==> r == PhoneMissing
    ensures c.Some? && c.value.repPhone.Some? ==> 4 <= |r| <= 14 && r[0] == '('
  {
    if c.None? || c.value.repPhone.None? then PhoneMissing
    else FormatPhoneDigits(FirstDigitRun(c.value.repPhone.value))
  }

  /** The phone formatter with a global match: every digit of the number. */
  function PhoneFormattedAllDigits(c: Option<Company>): (r: string)
    ensures c.None? || c.value.repPhone.None? ==> r == PhoneMissing
    ensures c.Some? && c.value.repPhone.Some? ==> 4 <= |r| <= 14 && r[0] == '('
  {
    if c.None? || c.value.repPhone.None? then PhoneMissing
    else FormatPhoneDigits(Digits(c.value.repPhone.value))
  }

  /** Both formatters answer with the message exactly when there is no phone number. */
  lemma PhoneMessageExactly(c: Option<Company>)
    ensures PhoneFormatted(c) == PhoneMissing <==> c.None? || c.value.repPhone.None?
    ensures PhoneFormattedAllDigits(c) == PhoneMissing <==> c.None? || c.value.repPhone.None?
  {
    if !(c.None? || c.value.repPhone.None?) {
      assert PhoneFormatted(c)[0] == '(';
      assert PhoneFormattedAllDigits(c)[0] == '(';
      assert PhoneMissing[0] == 'C';
    }
  }

  /** Without any digit the number formats as `() -`. */
  lemma NoDigitsFormatsEmpty(c: Company)
    requires c.repPhone.Some? && forall i | 0 <= i < |c.repPhone.value| :: !IsDigit(c.repPhone.value[i])
    ensures PhoneFormatted(Some(c)) == "() -"
  {
  }

  /**
   * A hyphenated number passes the phone rule, but only its first run `555` reaches the
   * formatter, which shows it as `() -555`.
   */
  lemma FirstRunOnlyTruncatesPhone()
    ensures PhoneRule("555-123-4567")
    ensures PhoneFormatted(Some(DefaultCompany.(repPhone := Some("555-123-4567")))) == "() -555"
  {
    PhoneAcceptsHyphenated();
    FirstRunOfHyphenatedPhone();
    ShortRunFormat();
  }

  lemma FirstRunOfHyphenatedPhone()
    ensures FirstDigitRun("555-123-4567") == "555"
  {
    var p := "555-123-4567";
    assert p == "555" + "-123-4567";
    LeadingDigitsOfRun("555", "-123-4567");
    FirstDigitRunAt(p, 0);
    assert p[0..] == p;
  }

  lemma ShortRunFormat()
    ensures FormatPhoneDigits("555") == "() -555"
  {
    FormatShortRun("555", "() -555");
  }

  /** At most four digits all land in the last group. */
  lemma FormatShortRun(d: string, r: string)
    requires |d| <= 4 && r == "() -" + d
    ensures FormatPhoneDigits(d) == r
  {
    assert Substring(d, |d| - 4, |d|) == d[0..|d|];
    assert d[0..|d|] == d;
  }

  /**
   * With every digit, an accepted number shows its last ten digits, that is the number
   * without the country code 1, cut 3-3-4.
   */
  lemma AcceptedPhoneFormatsTenDigits(c: Company)
    requires c.repPhone.Some? && PhoneRule(c.repPhone.value)
    ensures var d := Digits(c.repPhone.value);
      var k := |d| - 10;
      && (k == 0 || (k == 1 && d[0] == '1'))
      && PhoneFormattedAllDigits(Some(c)) == "(" + d[k..k + 3] + ") " + d[k + 3..k + 6] + "-" + d[k + 6..]
  {
    var d := Digits(c.repPhone.value);
    PhoneDigits(c.repPhone.value);
    var k := |d| - 10;
    assert Max0(|d| - 10) == k && Max0(|d| - 7) == k + 3 && Max0(|d| - 4) == k + 6;
    FormatPhoneDigitsShape(d);
    assert PhoneFormattedAllDigits(Some(c)) == FormatPhoneDigits(d);
  }

  /** The corrected formatter shows the hyphenated number in full. */
  lemma AllDigitsFormatsHyphenatedPhone()
    ensures PhoneFormattedAllDigits(Some(DefaultCompany.(repPhone := Some("555-123-4567")))) == "(555) 123-4567"
  {
    DigitsOfHyphenatedPhone();
    TenDigitFormat();
  }

  lemma DigitsOfHyphenatedPhone()
    ensures Digits("555-123-4567") == "5551234567"
  {
    DigitsOfHyphenatedGroups("555", "123", "4567");
    assert "555-123-4567" == "555" + "-" + "123" + "-" + "4567";
    assert "5551234567" == "555" + "123" + "4567";
  }

  lemma DigitsOfHyphenatedGroups(a: string, b: string, c: string)
    requires AllDigits(a) && AllDigits(b) && AllDigits(c)
    ensures Digits(a + "-" + b + "-" + c) == a + b + c
  {
    DigitsOfRunAndHyphen(a);
    DigitsAppendRun(a + "-", a, b);
    DigitsAfterHyphen(a + "-" + b, a + b);
    DigitsAppendRun(a + "-" + b + "-", a + b, c);
  }

  lemma DigitsAfterHyphen(x: string, d: string)
    requires Digits(x) == d
    ensures Digits(x + "-") == d
  {
    DigitsOfConcat(x, "-");
    assert Digits("-") == "";
  }

  lemma DigitsOfRunAndHyphen(b: string)
    requires AllDigits(b)
    ensures Digits(b + "-") == b
  {
    DigitsOfDigitString(b);
    DigitsOfConcat(b, "-");
    assert Digits("-") == "";
  }

  lemma DigitsAppendRun(x: string, b: string, c: string)
    requires AllDigits(c) && Digits(x) == b
    ensures Digits(x + c) == b + c
  {
    DigitsOfDigitString(c);
    DigitsOfConcat(x, c);
  }

  lemma TenDigitFormat()
    ensures FormatPhoneDigits("5551234567") == "(555) 123-4567"
  {
    FormatTenDigits("5551234567", "555", "123", "4567", "(555) 123-4567");
  }

  /** Ten digits `a + b + c` are shown as `(a) b-c`. */
  lemma FormatTenDigits(d: string, a: string, b: string, c: string, r: string)
    requires |a| == 3 && |b| == 3 && |c| == 4 && d == a + b + c
    requires r == "(" + a + ") " + b + "-" + c
    ensures FormatPhoneDigits(d) == r
  {
    assert d[0..3] == a && d[3..6] == b && d[6..10] == c;
  }
}
