/** The HTTP Basic gate of middleware.ts in front of the admin pages and the
    admin API (RFC 7617). The environment values, the request header and the
    base64 decoder are parameters; `atob` returns `None` where it would throw. */
module BasicAuth {
  import opened Wrappers
  import opened JsStrings

  /** What the middleware does with a request. `Throws` is an exception escaping
      the middleware (an undecodable credential token). */
  datatype Outcome =
    | Next
    | Respond(status: int, wwwAuthenticate: string, body: string)
    | Throws

  const Challenge := "Basic " + "realm=\"Secure Area\", charset=\"UTF-8\""

  /** `unauthorized()`: a 401 carrying the Basic challenge. */
  function Unauthorized(): (r: Outcome)
    ensures r.Respond? && r.status == 401 && StartsWith(r.wwwAuthenticate, "Basic ")
  {
    Respond(401, Challenge, "Authentication required.")
  }

  /** The prefix test of the middleware body. It would also accept `/administrator`,
      but the `config.matcher` patterns (middleware.ts:44-46) never run the
      middleware on such a path; the matcher is not part of this model. */
  predicate IsGated(path: string) {
    StartsWith(path, "/admin") || StartsWith(path, "/api/admin")
  }

  /** A configured environment value: present and not the empty string. */
  predicate IsSet(v: Option<string>) {
    v.Some? && v.value != ""
  }

  predicate IsBasicHeader(authorization: Option<string>) {
    authorization.Some? && StartsWith(authorization.value, "Basic ")
  }

  /** `header.split(" ")[1]`: the text between the first and the second space. */
  function CredentialToken(header: string): string
    requires StartsWith(header, "Basic ")
  {
    assert header[5] == ' ';
    Split(header, ' ')[1]
  }

  /** `decoded.split(":")`: the user is the first piece, the password the
      remaining pieces joined again with `:`. */
  function UserOf(decoded: string): string {
    Split(decoded, ':')[0]
  }

  function PasswordOf(decoded: string): string {
    Join(Split(decoded, ':')[1..], ':')
  }

  function Middleware(path: string, adminUser: Option<string>, adminPass: Option<string>,
                      authorization: Option<string>, atob: string -> Option<string>): (r: Outcome)
    ensures !IsGated(path) ==> r == Next
    ensures IsGated(path) && !(IsSet(adminUser) && IsSet(adminPass)) ==> r == Unauthorized()
    ensures IsGated(path) && !IsBasicHeader(authorization) ==> r == Unauthorized()
    ensures r.Respond? ==> r == Unauthorized()
    ensures r == Throws <==> && IsGated(path) && IsSet(adminUser) && IsSet(adminPass)
                             && IsBasicHeader(authorization)
                             && atob(CredentialToken(authorization.value)).None?
  {
    if !IsGated(path) then Next
    else if !IsSet(adminUser) || !IsSet(adminPass) then Unauthorized()
    else if !IsBasicHeader(authorization) then Unauthorized()
    else
      match atob(CredentialToken(authorization.value))
      case None => Throws
      case Some(decoded) =>
        if UserOf(decoded) == adminUser.value && PasswordOf(decoded) == adminPass.value then Next
        else Unauthorized()
  }

  /** The user is everything before the first colon and the password everything
      after it, further colons included (section 2 of RFC 7617). */
  lemma UserPasswordSplit(decoded: string)
    ensures ':' !in UserOf(decoded)
    ensures ':' in decoded ==> decoded == UserOf(decoded) + ":" + PasswordOf(decoded)
    ensures ':' !in decoded ==> UserOf(decoded) == decoded && PasswordOf(decoded) == ""
  {
    SplitFirstAndRest(decoded, ':');
  }

  /** The decoded credentials match the configured pair exactly when they are the
      user, a colon and the password, and the configured user has no colon. */
  lemma CredentialsMatchIff(decoded: string, user: string, pass: string)
    requires pass != ""
    ensures UserOf(decoded) == user && PasswordOf(decoded) == pass
        <==> ':' !in user && decoded == user + ":" + pass
  {
    UserPasswordSplit(decoded);
    if ':' !in user && decoded == user + ":" + pass {
      SplitAfterPrefix(user, ':', pass);
      JoinSplit(pass, ':');
    }
  }

  /** A request to a gated path is let through exactly when the gate is configured,
      the header is `Basic `, and the token decodes to `ADMIN_USER:ADMIN_PASS` with
      a colon-free `ADMIN_USER`. */
  lemma {:induction false} AuthorizedIff(path: string, adminUser: Option<string>, adminPass: Option<string>,
                      authorization: Option<string>, atob: string -> Option<string>)
    requires IsGated(path)
    ensures Middleware(path, adminUser, adminPass, authorization, atob) == Next
      <==> && IsSet(adminUser) && IsSet(adminPass) && IsBasicHeader(authorization)
           && ':' !in adminUser.value
           && atob(CredentialToken(authorization.value)) == Some(adminUser.value + ":" + adminPass.value)
  {
    if IsSet(adminUser) && IsSet(adminPass) && IsBasicHeader(authorization) {
      var decoded := atob(CredentialToken(authorization.value));
      if decoded.Some? {
        CredentialsMatchIff(decoded.value, adminUser.value, adminPass.value);
      }
    }
  }

  /** Credentials without a colon carry the empty password, which is never the
      configured one. */
  lemma NoColonNeverAuthorized(path: string, adminUser: Option<string>, adminPass: Option<string>,
                               authorization: Option<string>, atob: string -> Option<string>)
    requires IsGated(path) && IsBasicHeader(authorization)
    requires var d := atob(CredentialToken(authorization.value)); d.Some? && ':' !in d.value
    ensures Middleware(path, adminUser, adminPass, authorization, atob) != Next
  {
    UserPasswordSplit(atob(CredentialToken(authorization.value)).value);
  }
}
