/**
 * The company creation page of the account set-up: a company form without a second
 * address line whose mapping cuts the address as typed at its first space and trims
 * both pieces.
 */
module CompanyCreationPage {
  import opened Wrappers
  import opened JsString
  import opened CompanyModel
  import opened FormRules
  import opened AddressMapping
  import opened CreateLocation

  /** The form values; `Z` is the type of the ZIP: the string as typed or the parsed number. */
  datatype CompanyForm<Z> = CompanyForm(
    repFirstName: string,
    repLastName: string,
    repPhone: string,
    companyName: string,
    companyAddress: string,
    companyCity: string,
    companyState: string,
    companyZip: Z)

  /** The `companyFormSchema` rules of this page (the names' `nameRegex` is not modelled). */
  predicate ValidCompanyForm(v: CompanyForm<string>) {
    && RequiredText(v.repFirstName)
    && RequiredText(v.repLastName)
    && PhoneRule(v.repPhone)
    && RequiredText(v.companyName)
    && RequiredText(v.companyAddress)
    && RequiredText(v.companyCity)
    && StateLengthRule(v.companyState)
    && ZipRule(v.companyZip)
  }

  /** The schema's parse: the values when every rule holds, the ZIP through `parseInt`. */
  function ParseCompanyForm(v: CompanyForm<string>): (r: Option<CompanyForm<nat>>)
    ensures r.Some? <==> ValidCompanyForm(v)
    ensures r.Some? ==> NatToString(r.value.companyZip) == StripLeadingZeros(v.companyZip)
    ensures r.Some? ==> (r.value.repFirstName == v.repFirstName && r.value.repLastName == v.repLastName
      && r.value.repPhone == v.repPhone && r.value.companyName == v.companyName
      && r.value.companyAddress == v.companyAddress && r.value.companyCity == v.companyCity
      && r.value.companyState == v.companyState)
  {
    if ValidCompanyForm(v) then
      StoredZipDropsLeadingZeros(v.companyZip);
      Some(CompanyForm(v.repFirstName, v.repLastName, v.repPhone, v.companyName, v.companyAddress,
        v.companyCity, v.companyState, ParsedZip(v.companyZip)))
    else
      None
  }

  /**
   * `mapValues`: the company fields renamed, the address cut at its first space with both
   * pieces trimmed, the ZIP printed back as a decimal string, and the primary e-mail
   * address (or "").
   */
  function MapValues(v: CompanyForm<nat>, primaryEmail: Option<string>): (r: NewCompany)
    ensures r.name == v.companyName && r.city == v.companyCity && r.state == v.companyState
    ensures r.repFirstName == v.repFirstName && r.repLastName == v.repLastName && r.repPhone == v.repPhone
    ensures r.buildingNumber == UntrimmedBuildingNumber(v.companyAddress)
    ensures r.street == UntrimmedStreet(v.companyAddress)
    ensures ' ' !in v.companyAddress ==> r.buildingNumber == "" && r.street == Trim(v.companyAddress)
    ensures AllDigits(r.zip) && DecimalValue(r.zip) == v.companyZip
    ensures primaryEmail.None? || primaryEmail == Some("") ==> r.repEmail == ""
    ensures primaryEmail.Some? ==> r.repEmail == primaryEmail.value
  {
    DecimalValueOfNatToString(v.companyZip);
    NewCompany(
      v.companyName,
      UntrimmedBuildingNumber(v.companyAddress),
      UntrimmedStreet(v.companyAddress),
      v.companyCity,
      v.companyState,
      NatToString(v.companyZip),
      v.repFirstName,
      v.repLastName,
      v.repPhone,
      Or(primaryEmail, ""))
  }

  /** On a trimmed address this page splits as the other company form does without a second line. */
  lemma SplitsLikeCompanyForm(v: CompanyForm<nat>, primaryEmail: Option<string>)
    requires Trimmed(v.companyAddress)
    ensures MapValues(v, primaryEmail).buildingNumber == BuildingNumber(v.companyAddress)
    ensures MapValues(v, primaryEmail).street == Trim(Street(v.companyAddress, ""))
  {
    SplitVariantsAgree(v.companyAddress);
    assert Trim("") == "";
  }

  /**
   * A company created on this page from the address `b + " " + s` (`b` without spaces,
   * `s` trimmed and without commas) pre-fills the location form with the same name,
   * address, city and state, an empty second line, and the ZIP without leading zeros.
   */
  lemma CreationPageDefaultsRoundTrip(v: CompanyForm<string>, primaryEmail: Option<string>, id: int,
                                      b: string, s: string, user: User)
    requires ValidCompanyForm(v) && v.companyAddress == b + " " + s
    requires |b| >= 1 && ' ' !in b && Trimmed(b)
    requires |s| >= 1 && Trimmed(s) && ',' !in s
    requires user.company.Some?
    requires user.company.value.info == Stored(id, MapValues(ParseCompanyForm(v).value, primaryEmail))
    ensures DefaultValues(true, Some(user)) == LocationDefaults(
      v.companyName, v.companyAddress, "", v.companyCity, v.companyState, StripLeadingZeros(v.companyZip))
  {
    SplitWordAndRestAsTyped(b, s);
    RebuildsSplitAddress(b, s, "");
    assert Street(b + " " + s, "") == s;
  }

  /** `b + " " + s` is cut back into `b` and `s` when `b` holds no space. */
  lemma SplitWordAndRestAsTyped(b: string, s: string)
    requires |b| >= 1 && ' ' !in b && Trimmed(b)
    requires |s| >= 1 && Trimmed(s)
    ensures UntrimmedBuildingNumber(b + " " + s) == b && UntrimmedStreet(b + " " + s) == s
    ensures BuildingNumber(b + " " + s) == b && Street(b + " " + s, "") == s
  {
    SplitWordAndRest(b, s);
    var a := b + " " + s;
    assert a[0] == b[0] && a[|a| - 1] == s[|s| - 1];
    SplitVariantsAgree(a);
    TrimFixesExactlyTrimmed(s);
    assert Trim("") == "";
  }
}
