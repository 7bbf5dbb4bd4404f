/** The client-side route guard: given the session status and the page's
    requirement, it either shows the page, or shows the loading view and
    possibly navigates elsewhere. */
module RouteGuard {
  import opened Common

  datatype Status = Loading | Authenticated | Unauthenticated

  datatype View = PageLoading | Children

  /** What `AuthGuard` renders, and where its effect navigates (if anywhere). */
  datatype Decision = Decision(view: View, redirect: Option<string>)

  const LoginPath: string := "/login"
  const HomePath: string := "/"

  /** `redirectTo || fallback`. */
  function OrDefault(redirectTo: Option<string>, fallback: string): (r: string)
    ensures Truthy(redirectTo) ==> r == redirectTo.value
    ensures !Truthy(redirectTo) ==> r == fallback
  {
    if Truthy(redirectTo) then redirectTo.value else fallback
  }

  /** `AuthGuard`: its effect and its render, combined. An omitted
      `requireAuth` means `true`. */
  function AuthGuard(status: Status, requireAuth: Option<bool>, redirectTo: Option<string>): (r: Decision)
    ensures status == Loading ==> r == Decision(PageLoading, None)
    ensures requireAuth.GetOr(true) && status == Unauthenticated ==>
      r == Decision(PageLoading, Some(OrDefault(redirectTo, LoginPath)))
    ensures !requireAuth.GetOr(true) && status == Authenticated ==>
      r == Decision(PageLoading, Some(OrDefault(redirectTo, HomePath)))
    ensures r.view == Children <==>
      (status == Authenticated && requireAuth.GetOr(true)) || (status == Unauthenticated && !requireAuth.GetOr(true))
    ensures r.view == Children ==> r.redirect.None?
  {
    var required := requireAuth.GetOr(true);
    // the effect
    var redirect :=
      if status.Loading? then None
      else if required && status.Unauthenticated? then Some(OrDefault(redirectTo, LoginPath))
      else if !required && status.Authenticated? then Some(OrDefault(redirectTo, HomePath))
      else None;
    // the render
    var view :=
      if status.Loading? then PageLoading
      else if required && status.Unauthenticated? then PageLoading
      else if !required && status.Authenticated? then PageLoading
      else Children;
    Decision(view, redirect)
  }

  /** A navigation always goes with the loading view, and the loading view
      without a navigation only while the session is still loading. */
  lemma RedirectMeansLoadingView(status: Status, requireAuth: Option<bool>, redirectTo: Option<string>)
    ensures AuthGuard(status, requireAuth, redirectTo).redirect.Some? ==>
      AuthGuard(status, requireAuth, redirectTo).view == PageLoading
    ensures AuthGuard(status, requireAuth, redirectTo) == Decision(PageLoading, None) <==> status == Loading
    ensures AuthGuard(status, requireAuth, redirectTo).redirect.Some? ==>
      AuthGuard(status, requireAuth, redirectTo).redirect.value != ""
  {
  }

  /** A guard written without `requireAuth` protects its page. */
  lemma OmittedRequirementProtects(status: Status, redirectTo: Option<string>)
    ensures AuthGuard(status, None, redirectTo) == AuthGuard(status, Some(true), redirectTo)
    ensures status == Unauthenticated ==> AuthGuard(status, None, redirectTo).redirect == Some(OrDefault(redirectTo, LoginPath))
  {
  }

  /** `ProtectedPage`: requires a session, `/login` unless told otherwise. */
  function ProtectedPage(status: Status, redirectTo: Option<string>): (r: Decision)
    ensures r == AuthGuard(status, Some(true), Some(redirectTo.GetOr(LoginPath)))
    ensures status == Unauthenticated ==> r.redirect == Some(OrDefault(redirectTo, LoginPath))
    ensures r.view == Children <==> status == Authenticated
  {
    AuthGuard(status, Some(true), Some(redirectTo.GetOr(LoginPath)))
  }

  /** `GuestOnlyPage`: requires no session, `/` unless told otherwise. */
  function GuestOnlyPage(status: Status, redirectTo: Option<string>): (r: Decision)
    ensures r == AuthGuard(status, Some(false), Some(redirectTo.GetOr(HomePath)))
    ensures status == Authenticated ==> r.redirect == Some(OrDefault(redirectTo, HomePath))
    ensures r.view == Children <==> status == Unauthenticated
  {
    AuthGuard(status, Some(false), Some(redirectTo.GetOr(HomePath)))
  }

  /** Once the session is known, exactly one of the two wrappers shows its
      page. */
  lemma WrappersPartitionSettledSessions(status: Status, a: Option<string>, b: Option<string>)
    requires status != Loading
    ensures (ProtectedPage(status, a).view == Children) != (GuestOnlyPage(status, b).view == Children)
  {
  }
}
