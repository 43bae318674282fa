/**
 * The development server's gate (the `basicAuthPlugin` middleware in
 * vite.config.ts). It reads the header like the deployed handler but
 * destructures the decoded credentials as `[u, p] = decoded.split(":")`, so
 * its password is only the text between the first and the second colon.
 * `Middleware` models that code as written; `CorrectedMiddleware` splits at
 * the first colon only, as the deployed handler and section 2 of RFC 7617 do.
 */
module DevAuth {
  import opened Wrappers
  import opened Text
  import opened BasicAuth
  import opened ApiAuth

  /** `const [u, p] = decoded.split(":")`: the first two colon-separated parts; `p` is missing without a colon. */
  function FirstTwoParts(decoded: string): (pair: (string, Option<string>))
    ensures pair.1.None? <==> ':' !in decoded
  {
    var parts := Split(decoded, ':');
    (parts[0], if |parts| >= 2 then Some(parts[1]) else None)
  }

  /** The middleware as written: call `next()` when the gate is off or the first two parts match, otherwise challenge. */
  function Middleware(username: Option<string>, password: Option<string>, header: Option<string>, decode: string -> string): (d: Decision)
    ensures d == Admit || d == Unauthorized
    ensures !GateOn(username, password) ==> d == Admit
    ensures GateOn(username, password) && EncodedCredentials(header).None? ==> d == Unauthorized
  {
    if !GateOn(username, password) then Admit
    else match EncodedCredentials(header)
      case None => Unauthorized
      case Some(encoded) =>
        if FirstTwoParts(decode(encoded)) == (username.value, Some(password.value)) then Admit else Unauthorized
  }

  /** `decoded` is `user`, a colon, `pass`, and then either nothing or another colon, with no colon in `user` or `pass`. */
  predicate LeadsWith(decoded: string, user: string, pass: string) {
    var n := |user| + 1 + |pass|;
    ':' !in user && ':' !in pass
    && |decoded| >= n && decoded[..n] == user + ":" + pass
    && (|decoded| == n || decoded[n] == ':')
  }

  lemma FirstTwoPartsLead(decoded: string, user: string, pass: string)
    requires FirstTwoParts(decoded) == (user, Some(pass))
    ensures LeadsWith(decoded, user, pass)
  {
    var parts := Split(decoded, ':');
    var rest := Join(":", parts[1..]);
    SplitAtFirst(decoded, ':', user, rest);
    SplitAfterFirst(user, rest, ':');
    assert Split(rest, ':')[0] == pass;
    SplitHead(rest, ':', pass);
    assert decoded[|user| + 1..] == rest;
  }

  lemma LeadingFirstTwoParts(decoded: string, user: string, pass: string)
    requires LeadsWith(decoded, user, pass)
    ensures FirstTwoParts(decoded) == (user, Some(pass))
  {
    var n := |user| + 1 + |pass|;
    var rest := decoded[|user| + 1..];
    assert decoded[..|user|] == decoded[..n][..|user|] == user;
    assert decoded[|user|] == decoded[..n][|user|] == ':';
    assert decoded == user + [':'] + rest;
    SplitAfterFirst(user, rest, ':');
    assert rest[..|pass|] == decoded[..n][|user| + 1..] == pass;
    SplitHead(rest, ':', pass);
    assert Split(decoded, ':') == [user] + Split(rest, ':');
  }

  /**
   * With the gate on, the middleware lets a request through exactly when
   * the decoded text starts with the user-id, a colon and the password,
   * neither holding a colon, and ends there or continues with a colon.
   */
  lemma MiddlewareAdmitsExactly(username: Option<string>, password: Option<string>, header: Option<string>, decode: string -> string)
    requires GateOn(username, password)
    ensures Middleware(username, password, header, decode) == Admit <==> (
      EncodedCredentials(header).Some?
      && LeadsWith(decode(EncodedCredentials(header).value), username.value, password.value))
  {
    if EncodedCredentials(header).Some? {
      var decoded := decode(EncodedCredentials(header).value);
      if FirstTwoParts(decoded) == (username.value, Some(password.value)) {
        FirstTwoPartsLead(decoded, username.value, password.value);
      }
      if LeadsWith(decoded, username.value, password.value) {
        LeadingFirstTwoParts(decoded, username.value, password.value);
      }
    }
  }

  /** A configured password that holds a colon can never be entered: every request is challenged. */
  lemma ColonPasswordNeverAdmitted(username: Option<string>, password: Option<string>, header: Option<string>, decode: string -> string)
    requires GateOn(username, password) && ':' in password.value
    ensures Middleware(username, password, header, decode) == Unauthorized
  {
    MiddlewareAdmitsExactly(username, password, header, decode);
  }

  /** The header `Basic x` carries the token `x`. */
  lemma ExampleHeader()
    ensures EncodedCredentials(Some("Basic x")) == Some("x")
  {
    WellFormedHeader("x");
    assert "Basic " + "x" == "Basic x";
  }

  lemma ColonPasswordParts()
    ensures SplitCredentials("admin:a:b") == ("admin", "a:b")
  {
    var decoded, user, pass := "admin:a:b", "admin", "a:b";
    assert ':' !in user && decoded == user + ":" + pass;
    SplitCredentialsAtFirstColon(decoded, user, pass);
  }

  /** With user `admin` and password `a:b`, the credentials `admin:a:b` pass the deployed handler... */
  lemma ColonPasswordHandlerExample(decode: string -> string)
    requires decode("x") == "admin:a:b"
    ensures Handler(Some("admin"), Some("a:b"), Some("Basic x"), decode) == Admit
  {
    ExampleHeader();
    ColonPasswordParts();
  }

  /** ...but not the middleware, which can never admit that password. */
  lemma ColonPasswordMiddlewareExample(decode: string -> string)
    ensures Middleware(Some("admin"), Some("a:b"), Some("Basic x"), decode) == Unauthorized
  {
    var user, pass := Some("admin"), Some("a:b");
    assert pass.value[1] == ':';
    ColonPasswordNeverAdmitted(user, pass, Some("Basic x"), decode);
  }

  lemma TrailingTextParts()
    ensures FirstTwoParts("admin:pw:junk") == ("admin", Some("pw"))
  {
    var decoded, user, pass := "admin:pw:junk", "admin", "pw";
    assert ':' !in user && ':' !in pass;
    assert decoded[..8] == user + ":" + pass;
    assert decoded[8] == ':';
    LeadingFirstTwoParts(decoded, user, pass);
  }

  /** With user `admin` and password `pw`, the credentials `admin:pw:junk` pass the middleware... */
  lemma TrailingTextMiddlewareExample(decode: string -> string)
    requires decode("x") == "admin:pw:junk"
    ensures Middleware(Some("admin"), Some("pw"), Some("Basic x"), decode) == Admit
  {
    ExampleHeader();
    TrailingTextParts();
  }

  /** ...but not the deployed handler, which takes `pw:junk` as the password. */
  lemma TrailingTextHandlerExample(decode: string -> string)
    requires decode("x") == "admin:pw:junk"
    ensures Handler(Some("admin"), Some("pw"), Some("Basic x"), decode) == Unauthorized
  {
    var user, pass := Some("admin"), Some("pw");
    ExampleHeader();
    assert |decode("x")| != |user.value + ":" + pass.value|;
    HandlerAdmitsExactly(user, pass, Some("Basic x"), decode);
  }

  /**
   * The destructuring the middleware evidently intends: the user-id before
   * the first colon and everything after it as the password, which is
   * missing when there is no colon.
   */
  function FirstColonParts(decoded: string): (pair: (string, Option<string>))
    ensures pair.1.None? <==> ':' !in decoded
    ensures pair.1.Some? ==> ':' !in pair.0 && decoded == pair.0 + ":" + pair.1.value
  {
    var parts := Split(decoded, ':');
    SplitAtFirst(decoded, ':', parts[0], Join(":", parts[1..]));
    (parts[0], if |parts| >= 2 then Some(Join(":", parts[1..])) else None)
  }

  /** The middleware with the first-colon split. */
  function CorrectedMiddleware(username: Option<string>, password: Option<string>, header: Option<string>, decode: string -> string): (d: Decision)
    ensures d == Admit || d == Unauthorized
    ensures !GateOn(username, password) ==> d == Admit
    ensures GateOn(username, password) && EncodedCredentials(header).None? ==> d == Unauthorized
  {
    if !GateOn(username, password) then Admit
    else match EncodedCredentials(header)
      case None => Unauthorized
      case Some(encoded) =>
        if FirstColonParts(decode(encoded)) == (username.value, Some(password.value)) then Admit else Unauthorized
  }

  /**
   * The corrected middleware admits exactly the credentials `user:password`
   * of section 2 of RFC 7617, passwords with colons included, and so makes
   * the same decision as the deployed handler on every request.
   */
  lemma CorrectedMiddlewareAdmitsExactly(username: Option<string>, password: Option<string>, header: Option<string>, decode: string -> string)
    requires GateOn(username, password)
    ensures CorrectedMiddleware(username, password, header, decode) == Admit <==> (
      EncodedCredentials(header).Some?
      && ':' !in username.value
      && decode(EncodedCredentials(header).value) == username.value + ":" + password.value)
    ensures CorrectedMiddleware(username, password, header, decode) == Handler(username, password, header, decode)
  {
    if EncodedCredentials(header).Some? {
      SplitCredentialsAtFirstColon(decode(EncodedCredentials(header).value), username.value, password.value);
    }
  }

  /** Where no colon is involved the two versions agree: the correction only changes passwords with colons and trailing text. */
  lemma CorrectionAgreesWithoutExtraColons(username: Option<string>, password: Option<string>, header: Option<string>, decode: string -> string)
    requires GateOn(username, password) && ':' !in password.value
    requires EncodedCredentials(header).Some? && |Split(decode(EncodedCredentials(header).value), ':')| <= 2
    ensures Middleware(username, password, header, decode) == CorrectedMiddleware(username, password, header, decode)
  {
    var decoded := decode(EncodedCredentials(header).value);
    var parts := Split(decoded, ':');
    if |parts| == 2 {
      assert parts[1..] == [parts[1]];
    }
  }
}
