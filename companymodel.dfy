/**
 * The records the forms read and write: the stored company with its nullable columns,
 * the all-null default company, the company record the creation forms produce, and the
 * signed-in user with the company and locations attached to it.
 */
module CompanyModel {
  import opened Wrappers

  /** A company row: every column but the id may be null. */
  datatype Company = Company(
    id: int,
    name: Option<string>,
    buildingNumber: Option<string>,
    street: Option<string>,
    city: Option<string>,
    state: Option<string>,
    zip: Option<string>,
    repFirstName: Option<string>,
    repLastName: Option<string>,
    repPhone: Option<string>,
    repEmail: Option<string>)

  /** `defaultCompany`: id -1 and every other column null. */
  const DefaultCompany: Company :=
    Company(-1, None, None, None, None, None, None, None, None, None, None)

  /** A company that is about to be created: every column but the id, none of them null. */
  datatype NewCompany = NewCompany(
    name: string,
    buildingNumber: string,
    street: string,
    city: string,
    state: string,
    zip: string,
    repFirstName: string,
    repLastName: string,
    repPhone: string,
    repEmail: string)

  /** A company together with the ids of its locations (which may not have been loaded). */
  datatype FullCompany = FullCompany(info: Company, locations: Option<seq<int>>)

  /** The user record of the signed-in user, with its company relation. */
  datatype User = User(companyId: Option<int>, company: Option<FullCompany>)

  /** `user?.company ?? defaultCompany` (the same as `user?.company || defaultCompany` for objects). */
  function CompanyOf(user: Option<User>): (c: Company)
    ensures user.Some? && user.value.company.Some? ==> c == user.value.company.value.info
    ensures !(user.Some? && user.value.company.Some?) ==> c == DefaultCompany
  {
    if user.Some? && user.value.company.Some? then user.value.company.value.info else DefaultCompany
  }

  /** The stored form of a new company, as the database returns it with the given id. */
  function Stored(id: int, c: NewCompany): Company {
    Company(id, Some(c.name), Some(c.buildingNumber), Some(c.street), Some(c.city), Some(c.state),
      Some(c.zip), Some(c.repFirstName), Some(c.repLastName), Some(c.repPhone), Some(c.repEmail))
  }
}
