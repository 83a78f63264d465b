/**
 * The location form of the account set-up: its field rules, the segment and category
 * refinement against the loaded segments, the default values taken from the user's
 * company, and the mapping of the submitted values onto a new location record.
 */
module CreateLocation {
  import opened Wrappers
  import opened JsString
  import opened CompanyModel
  import opened FormRules
  import opened AddressMapping

  /**
   * The form values after coercion: the year and the two selected ids are numbers, the
   * rest are the strings as typed.
   */
  datatype LocationForm = LocationForm(
    name: string,
    startYear: int,
    address: string,
    addressSecondary: string,
    city: string,
    state: string,
    zip: string,
    segment: int,
    category: int)

  /** The six text fields the form pre-fills. */
  datatype LocationDefaults = LocationDefaults(
    name: string,
    address: string,
    addressSecondary: string,
    city: string,
    state: string,
    zip: string)

  /** A category of a segment; an entry of a segment's category list may be null. */
  datatype Category = Category(id: int)

  /** A business segment with its categories. */
  datatype Segment = Segment(id: int, categories: seq<Option<Category>>)

  /** A location about to be created, as `mapValues` builds it; `startYear` stands for `startDate`. */
  datatype NewLocation = NewLocation(
    nickname: string,
    companyId: int,
    index: string,
    buildingNumber: string,
    street: string,
    city: string,
    state: string,
    zip: string,
    segmentId: int,
    categoryId: int,
    startYear: int)

  // ---------------------------------------------------------------- field rules

  /** The `newLocationSchema` rules on the text fields and the year. */
  predicate FieldRules(v: LocationForm, states: seq<string>, currentYear: int) {
    && RequiredText(v.name)
    && YearRule(v.startYear, currentYear)
    && RequiredText(v.address)
    && OptionalText(v.addressSecondary)
    && RequiredText(v.city)
    && KnownStateRule(v.state, states)
    && ZipRule(v.zip)
  }

  /** `segments?.find(seg => seg.id == id)`: the first segment with this id. */
  function FindSegment(segments: seq<Segment>, id: int): (r: Option<Segment>)
    ensures r.None? <==> forall i | 0 <= i < |segments| :: segments[i].id != id
    ensures r.Some? ==> exists i | 0 <= i < |segments| ::
      segments[i] == r.value && r.value.id == id && forall j | 0 <= j < i :: segments[j].id != id
  {
    if segments == [] then None
    else if segments[0].id == id then Some(segments[0])
    else
      var r := FindSegment(segments[1..], id);
      assert forall i | 1 <= i < |segments| :: segments[i] == segments[1..][i - 1];
      r
  }

  /** `segments?.some(seg => seg.id == segmentId)`: false while the segments are not loaded. */
  predicate SegmentRule(segments: Option<seq<Segment>>, segment: int) {
    segments.Some? && exists i | 0 <= i < |segments.value| :: segments.value[i].id == segment
  }

  /** `categories.some(cat => cat?.id == category)`; a null entry matches nothing. */
  predicate HasCategory(categories: seq<Option<Category>>, category: int) {
    exists j | 0 <= j < |categories| :: categories[j].Some? && categories[j].value.id == category
  }

  /** `some` over two lists joined is `some` over either of them. */
  lemma HasCategoryAppend(a: seq<Option<Category>>, b: seq<Option<Category>>, category: int)
    ensures HasCategory(a + b, category) <==> HasCategory(a, category) || HasCategory(b, category)
  {
    if HasCategory(a + b, category) {
      var j :| 0 <= j < |a + b| && (a + b)[j].Some? && (a + b)[j].value.id == category;
      if j >= |a| {
        assert b[j - |a|] == (a + b)[j];
      }
    }
    if HasCategory(a, category) {
      var j :| 0 <= j < |a| && a[j].Some? && a[j].value.id == category;
      assert (a + b)[j] == a[j];
    }
    if HasCategory(b, category) {
      var j :| 0 <= j < |b| && b[j].Some? && b[j].value.id == category;
      assert (a + b)[|a| + j] == b[j];
    }
  }

  /** `segments?.find(…)?.categories.some(…)`: the category belongs to the chosen segment. */
  predicate CategoryRule(segments: Option<seq<Segment>>, segment: int, category: int) {
    segments.Some? && FindSegment(segments.value, segment).Some?
    && HasCategory(FindSegment(segments.value, segment).value.categories, category)
  }

  /** Everything `getRefinedSchema` demands of the submitted values. */
  predicate ValidLocationForm(v: LocationForm, states: seq<string>, currentYear: int, segments: Option<seq<Segment>>) {
    FieldRules(v, states, currentYear) && SegmentRule(segments, v.segment) && CategoryRule(segments, v.segment, v.category)
  }

  /**
   * The year rule accepts exactly the years from 1900 to the current year; in a current
   * year before 1900 no form passes.
   */
  lemma FieldRulesBoundYear(v: LocationForm, states: seq<string>, currentYear: int)
    ensures FieldRules(v, states, currentYear) ==> 1900 <= v.startYear <= currentYear
    ensures currentYear < 1900 ==> !FieldRules(v, states, currentYear)
    ensures FieldRules(v, states, currentYear) && 1900 <= v.startYear <= currentYear
      ==> forall y | 1900 <= y <= currentYear :: FieldRules(v.(startYear := y), states, currentYear)
  {
  }

  /** A category can only be valid for a segment that is valid. */
  lemma CategoryImpliesSegment(segments: Option<seq<Segment>>, segment: int, category: int)
    requires CategoryRule(segments, segment, category)
    ensures SegmentRule(segments, segment)
  {
    var i :| 0 <= i < |segments.value| && segments.value[i] == FindSegment(segments.value, segment).value
      && segments.value[i].id == segment;
  }

  /** The segment is valid exactly when `find` locates a segment. */
  lemma SegmentRuleFinds(segments: seq<Segment>, segment: int)
    ensures SegmentRule(Some(segments), segment) <==> FindSegment(segments, segment).Some?
  {
  }

  /** Until the segments are loaded no segment and no category is accepted. */
  lemma NotLoadedRejects(v: LocationForm, states: seq<string>, currentYear: int)
    ensures !SegmentRule(None, v.segment) && !CategoryRule(None, v.segment, v.category)
    ensures !ValidLocationForm(v, states, currentYear, None)
  {
  }

  /**
   * When two segments share an id the category is looked up in the first of them only:
   * a category of the second is rejected.
   */
  lemma DuplicateSegmentUsesFirst()
    ensures SegmentRule(Some([Segment(1, []), Segment(1, [Some(Category(7))])]), 1)
    ensures !CategoryRule(Some([Segment(1, []), Segment(1, [Some(Category(7))])]), 1, 7)
  {
    assert [Segment(1, []), Segment(1, [Some(Category(7))])][0].id == 1;
  }

  // ---------------------------------------------------------------- defaults

  /**
   * `defaultValues`: the name always comes from the company (or is ""); the address fields
   * only when `useCompanyDefaults` is set, and are "" otherwise.
   */
  function DefaultValues(useCompanyDefaults: bool, user: Option<User>): (d: LocationDefaults)
    ensures d.name == Or(CompanyOf(user).name, "")
    ensures !useCompanyDefaults ==> d == LocationDefaults(d.name, "", "", "", "", "")
  {
    var c := CompanyOf(user);
    LocationDefaults(
      Or(c.name, ""),
      if useCompanyDefaults then PrimaryAddress(c.buildingNumber, c.street) else "",
      if useCompanyDefaults then SecondaryAddress(c.street) else "",
      if useCompanyDefaults then Or(c.city, "") else "",
      if useCompanyDefaults then Or(c.state, "") else "",
      if useCompanyDefaults then Or(c.zip, "") else "")
  }

  /** Without a company the defaults are blank but for the lone space of the address. */
  lemma DefaultsWithoutCompany(user: Option<User>)
    requires user.None? || user.value.company.None?
    ensures DefaultValues(true, user) == LocationDefaults("", " ", "", "", "", "")
  {
  }

  // ---------------------------------------------------------------- mapping

  /** `!user || !user.companyId`: no user, no company id, or the falsy id 0. */
  predicate MissingCompanyId(user: Option<User>) {
    user.None? || user.value.companyId.None? || user.value.companyId.value == 0
  }

  /** `(user.company?.locations?.length ?? 1).toString()`. */
  function LocationIndex(user: User): (r: string)
    ensures AllDigits(r) && |r| >= 1
    ensures user.company.Some? && user.company.value.locations.Some? ==>
      DecimalValue(r) == |user.company.value.locations.value|
    ensures !(user.company.Some? && user.company.value.locations.Some?) ==> r == "1"
  {
    var count := if user.company.Some? && user.company.value.locations.Some?
      then |user.company.value.locations.value| else 1;
    DecimalValueOfNatToString(count);
    NatToString(count)
  }

  /**
   * `mapValues`: fails without a user or company id; otherwise splits the address at its
   * first space and copies the other fields.
   */
  function MapValues(v: LocationForm, user: Option<User>): (r: Result<NewLocation>)
    ensures r.Failure? <==> MissingCompanyId(user)
    ensures r.Failure? ==> r.message == "No user or user company id"
    ensures r.Ok? ==> r.value.companyId == user.value.companyId.value && r.value.companyId != 0
    ensures r.Ok? ==> r.value.index == LocationIndex(user.value)
    ensures r.Ok? ==> (r.value.nickname == v.name && r.value.city == v.city && r.value.state == v.state
      && r.value.zip == v.zip && r.value.segmentId == v.segment && r.value.categoryId == v.category
      && r.value.startYear == v.startYear)
    ensures r.Ok? ==> (r.value.buildingNumber == BuildingNumber(v.address)
      && r.value.street == Street(v.address, v.addressSecondary))
  {
    if MissingCompanyId(user) then Failure("No user or user company id")
    else
      var u := user.value;
      Ok(NewLocation(
        v.name,
        u.companyId.value,
        LocationIndex(u),
        BuildingNumber(v.address),
        Street(v.address, v.addressSecondary),
        v.city,
        v.state,
        v.zip,
        v.segment,
        v.category,
        v.startYear))
  }

  /** With no space in the address the building number is "" and the street the trimmed address. */
  lemma MapValuesWithoutSpace(v: LocationForm, user: Option<User>)
    requires !MissingCompanyId(user) && ' ' !in v.address
    ensures MapValues(v, user).value.buildingNumber == ""
    ensures MapValues(v, user).value.street == WithSecondLine(Trim(v.address), v.addressSecondary)
  {
  }

  /**
   * A location stored from the address `b + " " + s` (`b` without spaces, `s` trimmed and
   * without commas) and a second line, when read back as the defaults of a company with the
   * same building number and street, gives back the address and the trimmed second line.
   */
  lemma LocationDefaultsRoundTrip(v: LocationForm, user: Option<User>, b: string, s: string, u: User)
    requires !MissingCompanyId(user) && v.address == b + " " + s
    requires |b| >= 1 && ' ' !in b && Trimmed(b)
    requires |s| >= 1 && Trimmed(s) && ',' !in s
    requires u.company.Some?
    requires u.company.value.info.buildingNumber == Some(MapValues(v, user).value.buildingNumber)
    requires u.company.value.info.street == Some(MapValues(v, user).value.street)
    ensures DefaultValues(true, Some(u)).address == v.address
    ensures DefaultValues(true, Some(u)).addressSecondary == Trim(v.addressSecondary)
  {
    RebuildsSplitAddress(b, s, v.addressSecondary);
  }

  /** The index counts existing locations, so a company with an empty list gives "0", not "1". */
  lemma IndexOfEmptyLocationList(u: User)
    requires u.company.Some? && u.company.value.locations == Some([])
    ensures LocationIndex(u) == "0"
  {
  }
}
