/** `POST /api/admin/login`: check the admin password and issue the session cookie. */
module AdminLogin {
  import opened Wrappers
  import opened Text
  import opened Donations
  import opened AdminAuth

  const PasswordNotSet: string := "관리자 비밀번호가 설정되지 않았습니다."

  /** The session lifetime: 24 hours, in milliseconds. */
  const SessionLifetimeMs: nat := 24 * 60 * 60 * 1000

  /** The 32 random bytes a session token is made from. */
  type Seed = s: seq<byte> | |s| == 32 witness seq(32, _ => 0 as byte)

  /** The three outcomes: 200 `{success: true}`, 401 `{success: false}`, 500 with an error. */
  datatype LoginReply = LoggedIn | Rejected | NotConfigured(message: string)

  function StatusOf(r: LoginReply): nat {
    match r
    case LoggedIn => 200
    case Rejected => Unauthorized
    case NotConfigured(_) => ServerError
  }

  /** The response's cookie store. */
  class CookieJar {
    var cookies: map<string, Cookie>

    constructor (initial: map<string, Cookie>)
      ensures cookies == initial
    {
      cookies := initial;
    }

    /** `cookieStore.set(name, value, options)`: replaces any cookie of that name. */
    method Set(name: string, c: Cookie)
      modifies this
      ensures cookies == old(cookies)[name := c]
    {
      cookies := cookies[name := c];
    }
  }

  /** The session cookie issued at `nowMs` from `seed`. */
  function SessionCookieFor(seed: Seed, nowMs: int, production: bool): (c: Cookie)
    ensures |c.value| == 64 && forall i :: 0 <= i < |c.value| ==> IsHexDigit(c.value[i])
    ensures Unhex(c.value) == seed
    ensures c.httpOnly && c.secure == production && c.sameSite == "lax" && c.path == "/"
    ensures c.expiresMs - nowMs == SessionLifetimeMs
  {
    HexRoundTrip(seed);
    Cookie(Hex(seed), true, production, "lax", nowMs + SessionLifetimeMs, "/")
  }

  /**
   * The handler: `password` is the submitted value, `nowMs` the clock and
   * `seed` the random bytes drawn for the token.
   */
  method Login(jar: CookieJar, cfg: Config, password: Option<string>, nowMs: int, seed: Seed)
    returns (reply: LoginReply)
    modifies jar
    ensures !Truthy(cfg.adminPassword) ==> reply == NotConfigured(PasswordNotSet)
    ensures Truthy(cfg.adminPassword) ==> (reply == LoggedIn <==> password == cfg.adminPassword)
    ensures Truthy(cfg.adminPassword) && password != cfg.adminPassword ==> reply == Rejected
    ensures reply != LoggedIn ==> jar.cookies == old(jar.cookies)
    ensures reply == LoggedIn ==>
      jar.cookies == old(jar.cookies)[SessionCookie := SessionCookieFor(seed, nowMs, cfg.production)]
    ensures reply == LoggedIn ==> IsAdminAuthenticated(jar.cookies, cfg.adminPassword)
  {
    if !Truthy(cfg.adminPassword) {
      return NotConfigured(PasswordNotSet);
    }
    if password != cfg.adminPassword {
      return Rejected;
    }
    jar.Set(SessionCookie, SessionCookieFor(seed, nowMs, cfg.production));
    reply := LoggedIn;
  }
}
