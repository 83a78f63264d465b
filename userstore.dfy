/**
 * The user slice of the client-side store: three optional fields, initially all
 * undefined, and `setState`, which spreads a partial slice over the current one.
 */
module UserStore {
  import opened Wrappers

  /** The slice's data: `None` stands for `undefined`. */
  datatype UserSlice = UserSlice(id: Option<int>, clerkId: Option<string>, companyId: Option<int>)

  /**
   * A `Partial<UserSlice>`: the outer `None` is a key that is absent, `Some(v)` a key that
   * is present with the value `v` (which may itself be `undefined`).
   */
  datatype UserPatch = UserPatch(id: Option<Option<int>>, clerkId: Option<Option<string>>, companyId: Option<Option<int>>)

  const InitialUser: UserSlice := UserSlice(None, None, None)

  const EmptyPatch: UserPatch := UserPatch(None, None, None)

  /** `{ ...user, ...patch }` for one field: a present key wins, an absent one keeps the old value. */
  function Override<T>(current: Option<T>, key: Option<Option<T>>): (r: Option<T>)
    ensures key.Some? ==> r == key.value
    ensures key.None? ==> r == current
  {
    if key.Some? then key.value else current
  }

  /** `userState(patch)` applied to the current slice. */
  function Merge(user: UserSlice, patch: UserPatch): (r: UserSlice)
    ensures patch.id.Some? ==> r.id == patch.id.value
    ensures patch.id.None? ==> r.id == user.id
    ensures patch.clerkId.Some? ==> r.clerkId == patch.clerkId.value
    ensures patch.clerkId.None? ==> r.clerkId == user.clerkId
    ensures patch.companyId.Some? ==> r.companyId == patch.companyId.value
    ensures patch.companyId.None? ==> r.companyId == user.companyId
  {
    UserSlice(Override(user.id, patch.id), Override(user.clerkId, patch.clerkId), Override(user.companyId, patch.companyId))
  }

  /** Two partials spread one after the other: the later one's keys win. */
  function Then(first: UserPatch, second: UserPatch): UserPatch {
    UserPatch(
      if second.id.Some? then second.id else first.id,
      if second.clerkId.Some? then second.clerkId else first.clerkId,
      if second.companyId.Some? then second.companyId else first.companyId)
  }

  /** `setState({})` changes nothing. */
  lemma MergeEmpty(user: UserSlice)
    ensures Merge(user, EmptyPatch) == user
  {
  }

  /** Applying the same partial twice is applying it once. */
  lemma MergeIdempotent(user: UserSlice, patch: UserPatch)
    ensures Merge(Merge(user, patch), patch) == Merge(user, patch)
  {
  }

  /** Two updates in a row are one update with the combined partial. */
  lemma MergeCompose(user: UserSlice, first: UserPatch, second: UserPatch)
    ensures Merge(Merge(user, first), second) == Merge(user, Then(first, second))
  {
  }

  /** A partial that names every key replaces the whole slice. */
  lemma MergeFullPatch(user: UserSlice, next: UserSlice)
    ensures Merge(user, UserPatch(Some(next.id), Some(next.clerkId), Some(next.companyId))) == next
  {
  }

  /** The store holding the user slice. */
  class Store {
    var user: UserSlice

    /** `createUserSlice`: every field undefined. */
    constructor()
      ensures user == InitialUser
    {
      user := InitialUser;
    }

    /** `setState(userData)`: the partial spread over the current slice. */
    method SetState(patch: UserPatch)
      modifies this
      ensures user == Merge(old(user), patch)
    {
      user := Merge(user, patch);
    }
  }

  /** The store after a sign-in: two updates, then the same company id again. */
  method SignInScenario() returns (first: UserSlice, last: UserSlice)
    ensures first == UserSlice(Some(7), Some("user_1"), None)
    ensures last == UserSlice(Some(7), Some("user_1"), Some(3))
  {
    var store := new Store();
    store.SetState(UserPatch(Some(Some(7)), Some(Some("user_1")), None));
    first := store.user;
    store.SetState(UserPatch(None, None, Some(Some(3))));
    store.SetState(UserPatch(None, None, Some(Some(3))));
    last := store.user;
  }
}
