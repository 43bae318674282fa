/**
 * What the two HTTP Basic authentication gates (api/auth.ts and the dev
 * server middleware in vite.config.ts) have in common: when the gate is
 * switched on, how the `Authorization` header is read, and the challenge
 * a rejected request receives (section 2 of RFC 7617).
 */
module BasicAuth {
  import opened Wrappers
  import opened Text

  /** The gate's verdict: let the request through, or answer with a challenge. */
  datatype Decision = Admit | Challenge(status: int, wwwAuthenticate: string, body: string)

  const Unauthorized := Challenge(401, "Basic realm=\"Light Darkly\"", "Unauthorized")

  /**
   * The gate is on only when both `BASIC_AUTH_USERNAME` and
   * `BASIC_AUTH_PASSWORD` are set to non-empty values.
   */
  predicate GateOn(username: Option<string>, password: Option<string>) {
    username.Some? && username.value != "" && password.Some? && password.value != ""
  }

  /**
   * `const [scheme, encoded] = header.split(" ")`: the second space-separated
   * token when the first is exactly `Basic` and the second is non-empty.
   * Only the first two tokens are looked at.
   */
  function EncodedCredentials(header: Option<string>): (token: Option<string>)
    ensures token.Some? ==> token.value != "" && ' ' !in token.value
  {
    if header.None? || header.value == "" then None
    else
      var words := Split(header.value, ' ');
      if words[0] == "Basic" && |words| >= 2 && words[1] != "" then Some(words[1]) else None
  }

  /** `header` reads `Basic`, one space, `token`, and then either nothing or a space. */
  predicate Carries(header: string, token: string) {
    token != "" && ' ' !in token
    && |header| >= 6 + |token| && header[..6 + |token|] == "Basic " + token
    && (|header| == 6 + |token| || header[6 + |token|] == ' ')
  }

  /** The words after the scheme are the words of everything after the first space. */
  lemma WordsAfterScheme(rest: string)
    ensures Split("Basic " + rest, ' ') == ["Basic"] + Split(rest, ' ')
  {
    var basic := "Basic";
    assert ' ' !in basic;
    assert "Basic " + rest == basic + [' '] + rest;
    SplitAfterFirst(basic, rest, ' ');
  }

  lemma EncodedCredentialsCarried(header: string, token: string)
    requires EncodedCredentials(Some(header)) == Some(token)
    ensures Carries(header, token)
  {
    var words := Split(header, ' ');
    var basic := "Basic";
    assert ' ' !in basic;
    var rest := Join([' '], words[1..]);
    SplitAtFirst(header, ' ', basic, rest);
    assert header == "Basic " + rest;
    WordsAfterScheme(rest);
    assert Split(rest, ' ')[0] == token;
    SplitHead(rest, ' ', token);
    assert header[6..] == rest;
  }

  lemma CarriedEncodedCredentials(header: string, token: string)
    requires Carries(header, token)
    ensures EncodedCredentials(Some(header)) == Some(token)
  {
    var rest := header[6..];
    var prefix := header[..6 + |token|];
    assert header[..6] == prefix[..6] == "Basic ";
    assert header == header[..6] + rest;
    WordsAfterScheme(rest);
    assert rest[..|token|] == prefix[6..] == token;
    SplitHead(rest, ' ', token);
  }

  /**
   * The header yields the token exactly when it reads `Basic`, one space,
   * the token, and then either nothing or a space: the scheme is matched
   * case-sensitively and a single space separates it from the token.
   */
  lemma EncodedCredentialsExactly(header: string, token: string)
    ensures EncodedCredentials(Some(header)) == Some(token) <==> Carries(header, token)
  {
    if EncodedCredentials(Some(header)) == Some(token) {
      EncodedCredentialsCarried(header, token);
    }
    if Carries(header, token) {
      CarriedEncodedCredentials(header, token);
    }
  }

  /** A scheme written in another case is refused. */
  lemma LowercaseSchemeRefused(token: string)
    requires token != "" && ' ' !in token
    ensures EncodedCredentials(Some("basic " + token)).None?
  {
    var lower := "basic";
    assert ' ' !in lower;
    assert "basic " + token == lower + [' '] + token;
    SplitAfterFirst(lower, token, ' ');
  }

  /** Two spaces before the token are refused. */
  lemma DoubleSpaceRefused(token: string)
    requires token != "" && ' ' !in token
    ensures EncodedCredentials(Some("Basic  " + token)).None?
  {
    WordsAfterScheme(" " + token);
    var empty := "";
    assert " " + token == empty + [' '] + token;
    SplitAfterFirst(empty, token, ' ');
    assert "Basic  " + token == "Basic " + (" " + token);
  }

  /** `Basic`, one space and the token yield the token. */
  lemma WellFormedHeader(token: string)
    requires token != "" && ' ' !in token
    ensures EncodedCredentials(Some("Basic " + token)) == Some(token)
  {
    CarriedEncodedCredentials("Basic " + token, token);
  }
}
