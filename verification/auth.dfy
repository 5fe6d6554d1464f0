/** The authentication context: the profile it builds when none can be
    read, the stored user-type preference that overrides a profile read from
    the store, sign-up storing that preference, sign-out clearing the session
    state and forgiving an already-expired session, and the profile update.
    Sleeps, retries by timer and the session listener are not modelled; the
    store's answers are parameters. */
module Auth {
  import opened Wrappers
  import opened Text

  datatype UserType = Provider | Patient

  function TypeName(t: UserType): string {
    match t
    case Provider => "provider"
    case Patient => "patient"
  }

  /** A user profile. `userType` is a string: it may come from local storage
      or user metadata, which nothing checks. */
  datatype Profile = Profile(
    id: string,
    userType: string,
    fullName: string,
    email: string,
    phone: Option<string>,
    createdAt: string,
    updatedAt: string)

  /** What the authentication service knows of the signed-in user. */
  datatype AuthUser = AuthUser(
    email: Option<string>,
    metaFullName: Option<string>,
    metaUserType: Option<string>,
    metaPhone: Option<string>)

  /** `preferredUserType || storedUserType || user_metadata.user_type || 'patient'`. */
  function FallbackUserType(preferred: Option<UserType>, stored: Option<string>, user: Option<AuthUser>): (r: string)
    ensures preferred.Some? ==> r == TypeName(preferred.value)
    ensures preferred.None? && Truthy(stored) ==> r == stored.value
    ensures preferred.None? && !Truthy(stored) && user.Some? && Truthy(user.value.metaUserType) ==> r == user.value.metaUserType.value
    ensures preferred.None? && !Truthy(stored) && (user.None? || !Truthy(user.value.metaUserType)) ==> r == "patient"
  {
    if preferred.Some? then TypeName(preferred.value)
    else OrElse(stored, OrElse(if user.Some? then user.value.metaUserType else None, "patient"))
  }

  /** The email's local part: the text before the first `@`. */
  function EmailName(user: Option<AuthUser>): Option<string> {
    if user.Some? && user.value.email.Some? then Some(BeforeFirst(user.value.email.value, '@')) else None
  }

  /** `user_metadata.full_name || email.split('@')[0] || 'User'`. */
  function FallbackFullName(user: Option<AuthUser>): (r: string)
    ensures user.Some? && Truthy(user.value.metaFullName) ==> r == user.value.metaFullName.value
    ensures (user.None? || !Truthy(user.value.metaFullName)) && Truthy(EmailName(user)) ==> r == EmailName(user).value
    ensures (user.None? || !Truthy(user.value.metaFullName)) && !Truthy(EmailName(user)) ==> r == "User"
  {
    OrElse(if user.Some? then user.value.metaFullName else None, OrElse(EmailName(user), "User"))
  }

  /** The name taken from an email never holds an `@`, and no fallback name
      is empty. */
  lemma FallbackNameShape(user: Option<AuthUser>)
    ensures FallbackFullName(user) != ""
    ensures user.Some? && !Truthy(user.value.metaFullName) ==> '@' !in FallbackFullName(user)
  {
  }

  /** `createFallbackProfile`: built from the authentication service's user
      and the stored preference, dated `now`. */
  function FallbackProfile(userId: string, preferred: Option<UserType>, stored: Option<string>,
                           user: Option<AuthUser>, now: string): (r: Profile)
    ensures r.id == userId && r.createdAt == now && r.updatedAt == now
    ensures r.userType == FallbackUserType(preferred, stored, user) && r.fullName == FallbackFullName(user)
    ensures r.email == (if user.Some? then OrElse(user.value.email, "") else "")
    ensures Truthy(r.phone) <==> user.Some? && Truthy(user.value.metaPhone)
    ensures r.phone.Some? ==> user.Some? && r.phone == user.value.metaPhone
  {
    var phone := if user.Some? && Truthy(user.value.metaPhone) then user.value.metaPhone else None;
    Profile(userId, FallbackUserType(preferred, stored, user), FallbackFullName(user),
            if user.Some? then OrElse(user.value.email, "") else "", phone, now, now)
  }

  /** A fallback profile is a patient's unless something says otherwise, and
      its name is the email's local part when the metadata has none. */
  lemma FallbackExample(now: string)
    ensures var u := AuthUser(Some("jane@example.org"), None, None, None);
      var p := FallbackProfile("u1", None, None, Some(u), now);
      p.userType == "patient" && p.fullName == "jane" && p.email == "jane@example.org" && p.phone.None?
  {
    assert "jane@example.org" == "jane" + ['@'] + "example.org";
    BeforeFirstOfJoin("jane", '@', "example.org");
  }

  /** The type update written when the stored preference disagrees with a
      profile read from the store. */
  datatype Override = Override(profile: Profile, written: Option<string>)

  /** The check after a profile is read: when a preference is stored and differs from the
      profile's type, the type is written; the updated row is taken when the
      write returns one, and the profile as read otherwise. Without a
      preference, or when it already agrees, nothing is written. */
  function ApplyStoredType(existing: Profile, stored: Option<string>, update: Result<seq<Profile>>): (r: Override)
    ensures r.written.Some? <==> Truthy(stored) && existing.userType != stored.value
    ensures r.written.Some? ==> r.written == stored
    ensures r.written.None? ==> r.profile == existing
    ensures r.written.Some? && update.Ok? && |update.value| > 0 ==> r.profile == update.value[0]
    ensures r.written.Some? && (update.Err? || |update.value| == 0) ==> r.profile == existing
  {
    if Truthy(stored) && existing.userType != stored.value then
      var taken := if update.Ok? && |update.value| > 0 then update.value[0] else existing;
      Override(taken, stored)
    else Override(existing, None)
  }

  /** The row the store returns for that write: the type replaced and the
      update time moved on. */
  function TypeWritten(p: Profile, t: string, now: string): Profile {
    p.(userType := t, updatedAt := now)
  }

  /** Once the store has taken the write, the profile carries the stored
      type, and reading it again writes nothing more. */
  lemma OverrideSettles(existing: Profile, stored: string, now: string, again: Result<seq<Profile>>)
    requires stored != "" && existing.userType != stored
    ensures var r := ApplyStoredType(existing, Some(stored), Ok([TypeWritten(existing, stored, now)]));
      && r.profile.userType == stored
      && ApplyStoredType(r.profile, Some(stored), again) == Override(r.profile, None)
  {
  }

  /** A failed write keeps the type as read: the preference is lost for
      this load without an error. */
  lemma FailedOverrideKeepsType(existing: Profile, stored: string, message: string)
    requires stored != "" && existing.userType != stored
    ensures ApplyStoredType(existing, Some(stored), Err(message)).profile.userType == existing.userType
  {
  }

  /** One read of `user_profiles`. */
  datatype Read = Row(row: Profile) | NoRow | ReadError(code: string)

  const NotFoundCode := "PGRST116"

  /** `fetchUserProfile` without its sleeps: a not-found error is retried
      once; a retry without an error sets what it read as is, so a retry
      that finds no row leaves `null`, and only a retry that errs falls
      back; every other failure of the first read falls back; a row found on
      the first read goes through the stored-type override. `fallback` is
      what `createFallbackProfile` leaves; the result is the profile set,
      `None` for `null`. */
  function LoadProfile(first: Read, retry: Read, fallback: Option<Profile>, stored: Option<string>, update: Result<seq<Profile>>): (r: Option<Profile>)
    ensures first.Row? ==> r == Some(ApplyStoredType(first.row, stored, update).profile)
    ensures first.NoRow? ==> r == fallback
    ensures first.ReadError? && first.code != NotFoundCode ==> r == fallback
    ensures first.ReadError? && first.code == NotFoundCode && retry.Row? ==> r == Some(retry.row)
    ensures first.ReadError? && first.code == NotFoundCode && retry.NoRow? ==> r.None?
    ensures first.ReadError? && first.code == NotFoundCode && retry.ReadError? ==> r == fallback
  {
    match first
    case Row(p) => Some(ApplyStoredType(p, stored, update).profile)
    case NoRow => fallback
    case ReadError(code) =>
      if code != NotFoundCode then fallback
      else match retry
        case Row(q) => Some(q)
        case NoRow => None
        case ReadError(_) => fallback
  }

  /** What `createFallbackProfile` leaves: the fallback built from the user
      the authentication service returned, or no profile when that read
      throws, which its catch turns into `setProfile(null)`. */
  function FallbackOutcome(userId: string, preferred: Option<UserType>, stored: Option<string>,
                           userRead: Result<Option<AuthUser>>, now: string): (r: Option<Profile>)
    ensures r.None? <==> userRead.Err?
    ensures userRead.Ok? ==> r == Some(FallbackProfile(userId, preferred, stored, userRead.value, now))
  {
    match userRead
    case Err(_) => None
    case Ok(user) => Some(FallbackProfile(userId, preferred, stored, user, now))
  }

  /** A missing row normally still leaves a profile, the fallback; it is
      left without one only when reading the user fails as well. */
  lemma MissingRowProfileIff(userId: string, preferred: Option<UserType>, stored: Option<string>,
                             userRead: Result<Option<AuthUser>>, now: string, update: Result<seq<Profile>>)
    ensures var fallback := FallbackOutcome(userId, preferred, stored, userRead, now);
      && (LoadProfile(NoRow, NoRow, fallback, stored, update).Some? <==> userRead.Ok?)
      && (userRead.Ok? ==> LoadProfile(NoRow, NoRow, fallback, stored, update).value.id == userId)
  {
  }

  /** The override is applied on the first read only: the same row found on
      the retry keeps its type even when a different one is stored. */
  lemma RetriedRowSkipsOverride(p: Profile, stored: string, fallback: Option<Profile>, now: string)
    requires stored != "" && p.userType != stored
    ensures LoadProfile(Row(p), NoRow, fallback, Some(stored), Ok([TypeWritten(p, stored, now)])) == Some(TypeWritten(p, stored, now))
    ensures LoadProfile(ReadError(NotFoundCode), Row(p), fallback, Some(stored), Ok([TypeWritten(p, stored, now)])) == Some(p)
  {
  }

  /** The context's state; `stored` is the `selectedUserType` entry of local
      storage. */
  datatype AuthState = AuthState(user: Option<string>, profile: Option<Profile>, session: Option<string>, stored: Option<string>)

  /** What a remote call returned or threw; an error is its message, "" when
      it has none. */
  datatype Reply = Done | Returned(message: string) | Threw(message: string)

  datatype Outcome = Outcome(state: AuthState, error: Option<string>)

  /** `signUp`: the type is stored before the request, so it stays stored
      when the request fails. */
  function SignUp(s: AuthState, userType: UserType, reply: Reply): (r: Outcome)
    ensures r.state == s.(stored := Some(TypeName(userType)))
    ensures r.error.None? <==> reply.Done?
    ensures !reply.Done? ==> r.error == Some(reply.message)
  {
    var stored := s.(stored := Some(TypeName(userType)));
    match reply
    case Done => Outcome(stored, None)
    case Returned(m) => Outcome(stored, Some(m))
    case Threw(m) => Outcome(stored, Some(m))
  }

  const NoSessionClaim := "Session from session_id claim in JWT does not exist"
  const SessionNotFound := "session_not_found"
  const SessionMissing := "Auth session missing"

  /** The errors that mean the server has already ended the session. */
  predicate ExpiredSession(message: string) {
    Contains(message, NoSessionClaim) || Contains(message, SessionNotFound) || Contains(message, SessionMissing)
  }

  const SignedOut := AuthState(None, None, None, None)

  /** `signOut`: user, profile, session and stored type are cleared before
      the request, whatever it answers. An error naming an expired session,
      returned or thrown, counts as success; any other error is returned. */
  function SignOut(s: AuthState, reply: Reply): (r: Outcome)
    ensures r.state == SignedOut
    ensures r.error.None? <==> reply.Done? || ExpiredSession(reply.message)
    ensures r.error.Some? ==> r.error == Some(reply.message)
  {
    match reply
    case Done => Outcome(SignedOut, None)
    case Returned(m) => Outcome(SignedOut, if ExpiredSession(m) then None else Some(m))
    case Threw(m) => Outcome(SignedOut, if ExpiredSession(m) then None else Some(m))
  }

  /** A returned error and a thrown one with the same message are treated
      alike, and the state after sign-out does not depend on either. */
  lemma SignOutPathsAgree(s: AuthState, t: AuthState, message: string)
    ensures SignOut(s, Returned(message)) == SignOut(t, Threw(message))
  {
  }

  /** The service's wording for a missing session counts as success; an
      empty message, as left by an error without one, does not. */
  lemma SignOutClassifies(s: AuthState)
    ensures SignOut(s, Returned("AuthSessionMissingError: Auth session missing!")).error.None?
    ensures SignOut(s, Threw("")).error == Some("")
  {
    ContainsInfix("AuthSessionMissingError: ", SessionMissing, "!");
    assert "AuthSessionMissingError: Auth session missing!" == "AuthSessionMissingError: " + SessionMissing + "!";
  }

  /** A sign-up that fails still stores its type, and that type then
      rewrites the profile of whoever signs in next. */
  lemma FailedSignUpStillOverrides(s: AuthState, message: string, p: Profile, now: string)
    requires p.userType == "patient"
    ensures var u := SignUp(s, Provider, Returned(message));
      && u.error.Some?
      && ApplyStoredType(p, u.state.stored, Ok([TypeWritten(p, "provider", now)])).profile.userType == "provider"
  {
  }

  /** Sign-out drops the stored preference, so a profile loaded after the
      next sign-in keeps its own type. */
  lemma SignOutForgetsPreference(s: AuthState, reply: Reply, p: Profile, update: Result<seq<Profile>>)
    ensures ApplyStoredType(p, SignOut(s, reply).state.stored, update) == Override(p, None)
  {
  }

  const NoUser := "No user logged in"

  /** `updateProfile`: an error and no change without a user; the store
      write's failure is returned with no change; after a write the profile
      is loaded again, and `reloaded` is what that load sets, `None` when it
      ends with `null`. The store helper throws on failure, so the failure
      always arrives through the handler's `catch`. */
  function UpdateProfile(s: AuthState, fault: Option<string>, reloaded: Option<Profile>): (r: Outcome)
    ensures s.user.None? ==> r == Outcome(s, Some(NoUser))
    ensures s.user.Some? && fault.Some? ==> r == Outcome(s, fault)
    ensures s.user.Some? && fault.None? ==> r.error.None? && r.state == s.(profile := reloaded)
  {
    if s.user.None? then Outcome(s, Some(NoUser))
    else if fault.Some? then Outcome(s, fault)
    else Outcome(s.(profile := reloaded), None)
  }

  /** Without a user the update neither changes the state nor reaches the
      store: the outcome does not depend on what the store would answer. */
  lemma UpdateWithoutUserIsInert(s: AuthState, f1: Option<string>, f2: Option<string>, p1: Option<Profile>, p2: Option<Profile>)
    requires s.user.None?
    ensures UpdateProfile(s, f1, p1) == UpdateProfile(s, f2, p2)
    ensures UpdateProfile(s, f1, p1).error == Some(NoUser)
  {
  }

  /** The reload after a successful write is a `fetchUserProfile`, so
      whatever that load leaves is what the update leaves: a row read again
      goes through the stored-type override, and a not-found read whose
      retry finds nothing leaves no profile although the update reports no
      error. */
  lemma UpdateReloadsAsLoad(s: AuthState, first: Read, retry: Read, fallback: Option<Profile>, update: Result<seq<Profile>>)
    requires s.user.Some?
    ensures var r := UpdateProfile(s, None, LoadProfile(first, retry, fallback, s.stored, update));
      && r.error.None?
      && (first.Row? ==> r.state.profile == Some(ApplyStoredType(first.row, s.stored, update).profile))
      && (first.ReadError? && first.code == NotFoundCode && retry.NoRow? ==> r.state.profile.None?)
      && r.state.user == s.user && r.state.stored == s.stored
  {
  }
}
