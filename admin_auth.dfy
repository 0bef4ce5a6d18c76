/** The admin gate every admin route checks first. */
module AdminAuth {
  import opened Wrappers
  import opened Text

  /** The name of the session cookie. */
  const SessionCookie: string := "admin_session"

  /** A cookie with the attributes the login route sets; a request cookie only carries its value. */
  datatype Cookie = Cookie(
    value: string,
    httpOnly: bool,
    secure: bool,
    sameSite: string,
    expiresMs: int,
    path: string)

  /** `cookieStore.get('admin_session')?.value`. */
  function SessionValue(cookies: map<string, Cookie>): (r: Option<string>)
    ensures r.Some? <==> SessionCookie in cookies
    ensures r.Some? ==> r.value == cookies[SessionCookie].value
  {
    if SessionCookie in cookies then Some(cookies[SessionCookie].value) else None
  }

  /**
   * `!!session?.value && !!ADMIN_PASSWORD`: a non-empty session cookie and a
   * configured admin password; the cookie's value is compared with nothing.
   */
  function IsAdminAuthenticated(cookies: map<string, Cookie>, adminPassword: Option<string>): (r: bool)
    ensures r <==>
      && SessionCookie in cookies && cookies[SessionCookie].value != ""
      && adminPassword.Some? && adminPassword.value != ""
  {
    Truthy(SessionValue(cookies)) && Truthy(adminPassword)
  }

  /** No cookie, an empty cookie, or no configured password: the gate is shut. */
  lemma GateShut(cookies: map<string, Cookie>, adminPassword: Option<string>)
    requires SessionCookie !in cookies || cookies[SessionCookie].value == "" || !Truthy(adminPassword)
    ensures !IsAdminAuthenticated(cookies, adminPassword)
  {
  }

  /**
   * Any non-empty cookie value opens the gate once a password is configured,
   * whether or not the login route ever issued it.
   */
  lemma AnyCookieOpensGate(cookies: map<string, Cookie>, adminPassword: Option<string>, forged: Cookie)
    requires Truthy(adminPassword) && forged.value != ""
    ensures IsAdminAuthenticated(cookies[SessionCookie := forged], adminPassword)
  {
  }
}
