/**
 * The default values of the embedded location form: it always starts from the user's
 * company (or the all-null default company) and pre-selects the state CO when the
 * company has none.
 */
module CreateLocationForm {
  import opened Wrappers
  import opened JsString
  import opened CompanyModel
  import opened AddressMapping
  import opened CreateLocation

  /** The `defaultValue` of each field of the form. */
  function FormDefaults(user: Option<User>): (d: LocationDefaults)
    ensures d.state != ""
    ensures d.state == if CompanyOf(user).state.Some? && CompanyOf(user).state.value != ""
      then CompanyOf(user).state.value else "CO"
  {
    var c := CompanyOf(user);
    LocationDefaults(
      Or(c.name, ""),
      PrimaryAddress(c.buildingNumber, c.street),
      SecondaryAddress(c.street),
      Or(c.city, ""),
      Or(c.state, "CO"),
      Or(c.zip, ""))
  }

  /** With no company the address is a lone space, the state CO, and every other field "". */
  lemma NoCompanyFormDefaults(user: Option<User>)
    requires user.None? || user.value.company.None?
    ensures FormDefaults(user) == LocationDefaults("", " ", "", "", "CO", "")
  {
  }

  /**
   * The embedded form and the stand-alone form with company defaults agree on every field
   * but the state, where the stand-alone form falls back to "" instead of CO.
   */
  lemma FormDefaultsAgreeWithLocationDefaults(user: Option<User>)
    ensures FormDefaults(user).(state := "") == DefaultValues(true, user).(state := "")
    ensures DefaultValues(true, user).state == "" ==> FormDefaults(user).state == "CO"
    ensures DefaultValues(true, user).state != "" ==> FormDefaults(user).state == DefaultValues(true, user).state
  {
  }
}
