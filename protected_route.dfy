/**
 * The route guard wrapped around each page: once the session has loaded it sends a visitor
 * without a session to the login page, sends a user who has finished onboarding away from
 * onboarding pages, and sends a user who has not finished it from the dashboard to the
 * account-type step. It renders a loading view until the session has loaded and the page
 * otherwise.
 *
 * The navigation the effect would issue is returned as a value; the current path is an input.
 */
module ProtectedRoute {
  import opened Wrappers

  datatype Route = Login | Dashboard | AccountType {
    function Path(): string {
      match this
      case Login => "/login"
      case Dashboard => "/dashboard"
      case AccountType => "/account-type"
    }
  }

  /** The part of the profile the guard reads. */
  datatype Profile = Profile(onboardingCompleted: bool)

  /** The guard's inputs: the auth state, its two props and the current path. */
  datatype GuardInput = GuardInput(
    loading: bool, hasUser: bool, profile: Option<Profile>,
    requireAuth: bool, redirectIfCompleted: bool, pathname: string)

  /** The navigation the effect issues, if any. */
  function Redirect(i: GuardInput): (r: Option<Route>)
    ensures i.loading ==> r.None?
    ensures r == Some(Login) <==> !i.loading && i.requireAuth && !i.hasUser
    ensures r == Some(Dashboard) <==>
      && !i.loading && !(i.requireAuth && !i.hasUser)
      && i.hasUser && i.profile.Some? && i.redirectIfCompleted && i.profile.value.onboardingCompleted
    ensures r == Some(AccountType) <==>
      && !i.loading && !(i.requireAuth && !i.hasUser)
      && i.hasUser && i.profile.Some? && !i.redirectIfCompleted && !i.profile.value.onboardingCompleted
      && i.pathname == "/dashboard"
  {
    if i.loading then None
    else if i.requireAuth && !i.hasUser then Some(Login)
    else if i.hasUser && i.profile.Some? then
      if i.redirectIfCompleted && i.profile.value.onboardingCompleted then Some(Dashboard)
      else if !i.redirectIfCompleted && !i.profile.value.onboardingCompleted && i.pathname == "/dashboard" then Some(AccountType)
      else None
    else None
  }

  /** Without a session on a page that needs one, the login redirect wins whatever the rest of the state is. */
  lemma LoginTakesPrecedence(i: GuardInput, j: GuardInput)
    requires !i.loading && i.requireAuth && !i.hasUser
    requires j.loading == i.loading && j.requireAuth == i.requireAuth && j.hasUser == i.hasUser
    ensures Redirect(i) == Redirect(j) == Some(Login)
  {
  }

  /**
   * Without a profile row, neither a signed-in user nor a visitor on a page open to visitors
   * is redirected once loading is over.
   */
  lemma NoRedirectWithoutProfile(i: GuardInput)
    requires !i.loading && (i.hasUser || !i.requireAuth) && i.profile.None?
    ensures Redirect(i).None?
  {
  }

  /** What the guard renders. */
  datatype View = LoadingView | Children

  function Render(loading: bool): (v: View)
    ensures v == LoadingView <==> loading
  {
    if loading then LoadingView else Children
  }

  /** A redirect never replaces the page in the same pass: whenever it fires, the children are rendered. */
  lemma RedirectRendersChildren(i: GuardInput)
    requires Redirect(i).Some?
    ensures Render(i.loading) == Children
  {
  }
}
