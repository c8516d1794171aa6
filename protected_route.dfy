/** client/src/components/ProtectedRoute.js: what a protected route shows. */
module ProtectedRouteComponent {

  datatype RouteOutput = RenderNothing | RedirectToLogin | RenderChildren

  /** Nothing before the session is initialised, a redirect when it is not
      authenticated, otherwise the protected children. */
  function Gate(isAuthInitialized: bool, isAuthenticated: bool): (r: RouteOutput)
    ensures !isAuthInitialized ==> r == RenderNothing
    ensures isAuthInitialized && !isAuthenticated ==> r == RedirectToLogin
    ensures r == RenderChildren <==> isAuthInitialized && isAuthenticated
  {
    if !isAuthInitialized then RenderNothing
    else if !isAuthenticated then RedirectToLogin
    else RenderChildren
  }
}
