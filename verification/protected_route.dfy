/** The route guard (components/ProtectedRoute.tsx): signed-out visitors go to
    /login, signed-in users without a name go to /profile-setup, everyone else
    sees the page. */
module ProtectedRoute {
  import opened Wrappers
  import opened Types
  import Auth

  const LoginPath := "/login"
  const ProfileSetupPath := "/profile-setup"

  /** A redirect (with the path it came `from`) or the protected page itself. */
  datatype Decision = Redirect(to: string, from: string) | ShowOutlet

  /** `!user?.fullName`: there is no user, or the name is empty. */
  predicate MissingName(user: Option<UserProfile>)
  {
    user.None? || user.value.fullName == ""
  }

  function Decide(isAuthenticated: bool, user: Option<UserProfile>, pathname: string): (d: Decision)
    ensures !isAuthenticated ==> d == Redirect(LoginPath, pathname)
    ensures isAuthenticated && MissingName(user) && pathname != ProfileSetupPath ==> d == Redirect(ProfileSetupPath, pathname)
    ensures isAuthenticated && !MissingName(user) ==> d == ShowOutlet
    ensures isAuthenticated && pathname == ProfileSetupPath ==> d == ShowOutlet
    ensures d.Redirect? ==> d.from == pathname && d.to in {LoginPath, ProfileSetupPath}
  {
    if !isAuthenticated then Redirect(LoginPath, pathname)
    else if MissingName(user) && pathname != ProfileSetupPath then Redirect(ProfileSetupPath, pathname)
    else ShowOutlet
  }

  /** A redirect to profile setup never leads to another redirect. */
  lemma NoRedirectLoop(isAuthenticated: bool, user: Option<UserProfile>, pathname: string)
    requires Decide(isAuthenticated, user, pathname).Redirect?
    requires Decide(isAuthenticated, user, pathname).to == ProfileSetupPath
    ensures Decide(isAuthenticated, user, ProfileSetupPath) == ShowOutlet
  {
  }

  /** A first sign-in with a new number is sent to profile setup from every
      other page; once the profile has a name, every page opens. */
  lemma OnboardingGate(s: Auth.AuthState, mobile: string, newId: string, fullName: string,
                       email: Option<string>, pathname: string)
    requires Auth.ProfileKey(mobile) !in s.store
    requires fullName != ""
    ensures var s1 := Auth.Login(s, mobile, Auth.MockOtp, newId).state;
      pathname != ProfileSetupPath ==>
        Decide(s1.isAuthenticated, s1.user, pathname) == Redirect(ProfileSetupPath, pathname)
    ensures var s1 := Auth.Login(s, mobile, Auth.MockOtp, newId).state;
      var s2 := Auth.CompleteProfile(s1, fullName, email).state;
      Decide(s2.isAuthenticated, s2.user, pathname) == ShowOutlet
  {
  }
}
