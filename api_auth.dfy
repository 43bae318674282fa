/**
 * The deployed gate in front of the app (api/auth.ts): when credentials are
 * configured, a request is served only with a Basic `Authorization` header
 * whose decoded user-id and password match them. Base64 decoding (Node's
 * lenient `Buffer` decoder) is a parameter of the model.
 */
module ApiAuth {
  import opened Wrappers
  import opened Text
  import opened BasicAuth

  /**
   * `const [u, ...rest] = decoded.split(":"); const p = rest.join(":")`: the
   * user-id is everything before the first colon and the password everything
   * after it; with no colon the password is empty.
   */
  function SplitCredentials(decoded: string): (pair: (string, string))
  {
    var parts := Split(decoded, ':');
    (parts[0], Join(":", parts[1..]))
  }

  /**
   * Decoded text with a colon splits into a user-id and a password exactly
   * when it is the user-id (free of colons), a colon and the password, as
   * section 2 of RFC 7617 reads it; the password may itself hold colons.
   */
  lemma SplitCredentialsAtFirstColon(decoded: string, user: string, pass: string)
    ensures (':' in decoded && SplitCredentials(decoded) == (user, pass)) <==> (':' !in user && decoded == user + ":" + pass)
    ensures ':' !in decoded ==> SplitCredentials(decoded) == (decoded, "")
  {
    SplitAtFirst(decoded, ':', user, pass);
    if ':' !in decoded {
      SplitNoSeparator(decoded, ':');
    }
    if ':' !in user && decoded == user + ":" + pass {
      assert decoded[|user|] == ':';
    }
  }

  /** `handler`: serve when the gate is off or the credentials match, otherwise challenge. */
  function Handler(username: Option<string>, password: Option<string>, header: Option<string>, decode: string -> string): (d: Decision)
    ensures d == Admit || d == Unauthorized
    ensures !GateOn(username, password) ==> d == Admit
    ensures GateOn(username, password) && EncodedCredentials(header).None? ==> d == Unauthorized
  {
    if !GateOn(username, password) then Admit
    else match EncodedCredentials(header)
      case None => Unauthorized
      case Some(encoded) =>
        if SplitCredentials(decode(encoded)) == (username.value, password.value) then Admit else Unauthorized
  }

  /**
   * With the gate on, a request is served exactly when its header carries a
   * token that decodes to the configured user-id (which then cannot hold a
   * colon), a colon and the configured password.
   */
  lemma HandlerAdmitsExactly(username: Option<string>, password: Option<string>, header: Option<string>, decode: string -> string)
    requires GateOn(username, password)
    ensures Handler(username, password, header, decode) == Admit <==> (
      EncodedCredentials(header).Some?
      && ':' !in username.value
      && decode(EncodedCredentials(header).value) == username.value + ":" + password.value)
  {
    if EncodedCredentials(header).Some? {
      var decoded := decode(EncodedCredentials(header).value);
      SplitCredentialsAtFirstColon(decoded, username.value, password.value);
    }
  }

  /** Decoded text with no colon has an empty password, which never matches the configured (non-empty) one. */
  lemma NoColonRejected(username: Option<string>, password: Option<string>, header: Option<string>, decode: string -> string)
    requires GateOn(username, password)
    requires EncodedCredentials(header).Some? && ':' !in decode(EncodedCredentials(header).value)
    ensures Handler(username, password, header, decode) == Unauthorized
  {
    SplitCredentialsAtFirstColon(decode(EncodedCredentials(header).value), username.value, password.value);
  }
}
