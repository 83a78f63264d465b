/**
 * The first company form of the account set-up: its field rules, the parse that turns the
 * ZIP into a number, and the mapping of the parsed values onto a new company record.
 */
module CreateCompany {
  import opened Wrappers
  import opened JsString
  import opened CompanyModel
  import opened FormRules
  import opened AddressMapping
  import opened CreateLocation

  /** The form values; `Z` is the type of the ZIP: the string as typed or the parsed number. */
  datatype CompanyForm<Z> = CompanyForm(
    repFirstName: string,
    repLastName: string,
    repPhone: string,
    name: string,
    address: string,
    addressSecondary: string,
    city: string,
    state: string,
    zip: Z)

  /** The `companyFormSchema` rules (the names' `nameRegex` is not modelled). */
  predicate ValidCompanyForm(v: CompanyForm<string>) {
    && RequiredText(v.repFirstName)
    && RequiredText(v.repLastName)
    && PhoneRule(v.repPhone)
    && RequiredText(v.name)
    && RequiredText(v.address)
    && OptionalText(v.addressSecondary)
    && RequiredText(v.city)
    && StateLengthRule(v.state)
    && ZipRule(v.zip)
  }

  /** The schema's parse: the values when every rule holds, the ZIP through `parseInt`. */
  function ParseCompanyForm(v: CompanyForm<string>): (r: Option<CompanyForm<nat>>)
    ensures r.Some? <==> ValidCompanyForm(v)
    ensures r.Some? ==> NatToString(r.value.zip) == StripLeadingZeros(v.zip)
    ensures r.Some? ==> (r.value.repFirstName == v.repFirstName && r.value.repLastName == v.repLastName
      && r.value.repPhone == v.repPhone && r.value.name == v.name && r.value.address == v.address
      && r.value.addressSecondary == v.addressSecondary && r.value.city == v.city && r.value.state == v.state)
  {
    if ValidCompanyForm(v) then
      StoredZipDropsLeadingZeros(v.zip);
      Some(CompanyForm(v.repFirstName, v.repLastName, v.repPhone, v.name, v.address,
        v.addressSecondary, v.city, v.state, ParsedZip(v.zip)))
    else
      None
  }

  /**
   * `mapValues`: the values spread over the record, the address split at its first space,
   * the ZIP printed back as a decimal string, and the user's primary e-mail address (or "").
   */
  function MapValues(v: CompanyForm<nat>, primaryEmail: Option<string>): (r: NewCompany)
    ensures r.name == v.name && r.city == v.city && r.state == v.state
    ensures r.repFirstName == v.repFirstName && r.repLastName == v.repLastName && r.repPhone == v.repPhone
    ensures r.buildingNumber == BuildingNumber(v.address)
    ensures r.street == Street(v.address, v.addressSecondary)
    ensures AllDigits(r.zip) && DecimalValue(r.zip) == v.zip
    ensures primaryEmail.None? || primaryEmail == Some("") ==> r.repEmail == ""
    ensures primaryEmail.Some? ==> r.repEmail == primaryEmail.value
  {
    DecimalValueOfNatToString(v.zip);
    NewCompany(
      v.name,
      BuildingNumber(v.address),
      Street(v.address, v.addressSecondary),
      v.city,
      v.state,
      NatToString(v.zip),
      v.repFirstName,
      v.repLastName,
      v.repPhone,
      Or(primaryEmail, ""))
  }

  /** The stored ZIP of an accepted form is the typed ZIP without its leading zeros. */
  lemma StoredZipOfAcceptedForm(v: CompanyForm<string>, primaryEmail: Option<string>)
    requires ValidCompanyForm(v)
    ensures MapValues(ParseCompanyForm(v).value, primaryEmail).zip == StripLeadingZeros(v.zip)
    ensures v.zip[0] != '0' ==> MapValues(ParseCompanyForm(v).value, primaryEmail).zip == v.zip
  {
    StoredZipDropsLeadingZeros(v.zip);
  }

  /**
   * A company created from an accepted form whose address is `b + " " + s` (`b` without
   * spaces, `s` trimmed and without commas) pre-fills the location form with the same
   * name, address, city and state, the trimmed second line, and the ZIP without its
   * leading zeros.
   */
  lemma CompanyDefaultsRoundTrip(v: CompanyForm<string>, primaryEmail: Option<string>, id: int,
                                 b: string, s: string, user: User)
    requires ValidCompanyForm(v) && v.address == b + " " + s
    requires |b| >= 1 && ' ' !in b && Trimmed(b)
    requires |s| >= 1 && Trimmed(s) && ',' !in s
    requires user.company.Some?
    requires user.company.value.info == Stored(id, MapValues(ParseCompanyForm(v).value, primaryEmail))
    ensures DefaultValues(true, Some(user)) == LocationDefaults(
      v.name, v.address, Trim(v.addressSecondary), v.city, v.state, StripLeadingZeros(v.zip))
  {
    StoredZipOfAcceptedForm(v, primaryEmail);
    RebuildsSplitAddress(b, s, v.addressSecondary);
  }
}
