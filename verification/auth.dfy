/** The mock identity store (contexts/AuthContext.tsx): the signed-in profile,
    the authentication flag, and the profile entries of the device's key-value
    store, under their literal keys `user-<mobile>` (one per phone number) and
    `fuelSwiftUser` (the current session). */
module Auth {
  import opened Wrappers
  import opened Types

  /** The only code the mock verification accepts. */
  const MockOtp := "1234"

  const InvalidOtp := "Invalid OTP"
  const NoUser := "User not found for profile completion."

  /** The key of the current session's profile. */
  const SessionKey := "fuelSwiftUser"

  /** The key of the profile registered for a phone number. */
  function ProfileKey(mobile: string): (k: string)
    ensures |k| == |mobile| + 5 && k[..5] == "user-" && k[5..] == mobile
  {
    "user-" + mobile
  }

  /** Different phone numbers never share a profile entry, and no profile entry
      is the session entry. */
  lemma KeysDistinct(m: string, n: string)
    ensures ProfileKey(m) == ProfileKey(n) ==> m == n
    ensures ProfileKey(m) != SessionKey
  {
    assert ProfileKey(m)[0] == 'u' && SessionKey[0] == 'f';
  }

  datatype AuthState = AuthState(
    user: Option<UserProfile>,
    isAuthenticated: bool,
    store: map<string, UserProfile>)

  /** The state after an operation, and whether it completed or rejected. */
  datatype Attempt = Attempt(state: AuthState, outcome: Outcome<string>)

  /** Each stored per-number profile is filed under its own number. */
  ghost predicate WellKeyed(store: map<string, UserProfile>)
  {
    forall m :: ProfileKey(m) in store ==> store[ProfileKey(m)].mobileNumber == m
  }

  /** The flag is set exactly when there is a user, and the session entry holds
      that user. */
  ghost predicate Consistent(s: AuthState)
  {
    && (s.isAuthenticated <==> s.user.Some?)
    && (s.user.Some? ==> SessionKey in s.store && s.store[SessionKey] == s.user.value)
    && WellKeyed(s.store)
  }

  /** The mount effect: a stored session signs its user back in. */
  function Restore(store: map<string, UserProfile>): (s: AuthState)
    ensures s.store == store
    ensures SessionKey in store ==> s.user == Some(store[SessionKey]) && s.isAuthenticated
    ensures SessionKey !in store ==> s.user.None? && !s.isAuthenticated
  {
    if SessionKey in store then AuthState(Some(store[SessionKey]), true, store)
    else AuthState(None, false, store)
  }

  /** `login(mobile, otp)`, with the id the clock would supply for a new
      profile. With any code but `MockOtp` it rejects with "Invalid OTP" and
      changes nothing. Otherwise the number's stored profile is used, or a new
      one with that number and an empty name is created and stored; it becomes
      the signed-in user and the session entry. */
  function Login(s: AuthState, mobile: string, otp: string, newId: string): (r: Attempt)
    ensures r.outcome.Pass? <==> otp == MockOtp
    ensures r.outcome.Fail? ==> r.outcome.error == InvalidOtp && r.state == s
    ensures r.outcome.Pass? ==>
      && r.state.isAuthenticated && r.state.user.Some?
      && SessionKey in r.state.store && r.state.store[SessionKey] == r.state.user.value
      && ProfileKey(mobile) in r.state.store
      && r.state.store[ProfileKey(mobile)] == r.state.user.value
      && (forall k :: k in s.store && k != SessionKey && k != ProfileKey(mobile) ==>
            k in r.state.store && r.state.store[k] == s.store[k])
    ensures r.outcome.Pass? ==> r.state.store.Keys == s.store.Keys + {SessionKey, ProfileKey(mobile)}
    ensures r.outcome.Pass? && ProfileKey(mobile) in s.store ==>
      r.state.user == Some(s.store[ProfileKey(mobile)])
    ensures r.outcome.Pass? && ProfileKey(mobile) !in s.store ==>
      r.state.user == Some(UserProfile(newId, mobile, "", None))
  {
    if otp != MockOtp then
      Attempt(s, Fail(InvalidOtp))
    else
      var key := ProfileKey(mobile);
      var profile := if key in s.store then s.store[key] else UserProfile(newId, mobile, "", None);
      var store := s.store[key := profile][SessionKey := profile];
      Attempt(AuthState(Some(profile), true, store), Pass)
  }

  /** `completeProfile(fullName, email)`: rejects, changing nothing, when nobody
      is signed in. Otherwise the user gets the new name, keeps the old email
      unless a non-empty one is given, keeps id and number, and both the session
      entry and the number's entry are rewritten. */
  function CompleteProfile(s: AuthState, fullName: string, email: Option<string>): (r: Attempt)
    ensures r.outcome.Fail? <==> s.user.None?
    ensures r.outcome.Fail? ==> r.outcome.error == NoUser && r.state == s
    ensures r.outcome.Pass? ==> r.state.user.Some?
    ensures r.outcome.Pass? ==>
      var u, u' := s.user.value, r.state.user.value;
      && u'.fullName == fullName
      && u'.id == u.id && u'.mobileNumber == u.mobileNumber
      && (email.Some? && email.value != "" ==> u'.email == email)
      && (email.None? || email.value == "" ==> u'.email == u.email)
      && r.state.isAuthenticated == s.isAuthenticated
      && r.state.store == s.store[SessionKey := u'][ProfileKey(u.mobileNumber) := u']
  {
    match s.user
    case None => Attempt(s, Fail(NoUser))
    case Some(u) =>
      var u' := u.(fullName := fullName, email := if email.Some? && email.value != "" then email else u.email);
      Attempt(s.(user := Some(u'), store := s.store[SessionKey := u'][ProfileKey(u.mobileNumber) := u']), Pass)
  }

  /** `logout()`: clears the user, the flag and the session entry; the
      per-number profiles stay. */
  function Logout(s: AuthState): (r: AuthState)
    ensures r.user.None? && !r.isAuthenticated
    ensures SessionKey !in r.store
    ensures r.store.Keys == s.store.Keys - {SessionKey}
    ensures forall k :: k in s.store && k != SessionKey ==> k in r.store && r.store[k] == s.store[k]
  {
    AuthState(None, false, s.store - {SessionKey})
  }

  /** Signing in twice with the same number yields the same profile, whatever
      id the clock offers the second time. */
  lemma LoginTwiceSameProfile(s: AuthState, mobile: string, id1: string, id2: string)
    ensures var first := Login(s, mobile, MockOtp, id1).state;
      Login(first, mobile, MockOtp, id2).state.user == first.user
  {
  }

  /** A completed profile survives logging out: signing in again with the same
      number restores it, name included. */
  lemma ProfileSurvivesLogout(s: AuthState, mobile: string, id1: string, id2: string,
                              fullName: string, email: Option<string>)
    requires WellKeyed(s.store)
    ensures var s1 := Login(s, mobile, MockOtp, id1).state;
      var s2 := CompleteProfile(s1, fullName, email).state;
      var s3 := Login(Logout(s2), mobile, MockOtp, id2).state;
      && s3.user == s2.user
      && s3.user.Some? && s3.user.value.fullName == fullName
  {
    var s1 := Login(s, mobile, MockOtp, id1).state;
    var s2 := CompleteProfile(s1, fullName, email).state;
    assert s1.user.value.mobileNumber == mobile;
    KeysDistinct(mobile, mobile);
  }

  /** Every operation keeps the store `Consistent`. */
  lemma OperationsPreserveConsistent(s: AuthState, mobile: string, otp: string, newId: string,
                                     fullName: string, email: Option<string>)
    requires Consistent(s)
    ensures Consistent(Login(s, mobile, otp, newId).state)
    ensures Consistent(CompleteProfile(s, fullName, email).state)
    ensures Consistent(Logout(s))
  {
    forall m | ProfileKey(m) in Login(s, mobile, otp, newId).state.store
      ensures Login(s, mobile, otp, newId).state.store[ProfileKey(m)].mobileNumber == m
    {
      KeysDistinct(m, mobile);
    }
    if s.user.Some? {
      var st := CompleteProfile(s, fullName, email).state.store;
      forall m | ProfileKey(m) in st
        ensures st[ProfileKey(m)].mobileNumber == m
      {
        KeysDistinct(m, s.user.value.mobileNumber);
      }
      KeysDistinct(s.user.value.mobileNumber, s.user.value.mobileNumber);
    }
    forall m | ProfileKey(m) in Logout(s).store
      ensures Logout(s).store[ProfileKey(m)].mobileNumber == m
    {
      KeysDistinct(m, m);
    }
  }

  /** Restoring from a well-keyed store gives a consistent state. */
  lemma RestoreConsistent(store: map<string, UserProfile>)
    requires WellKeyed(store)
    ensures Consistent(Restore(store))
  {
  }
}
