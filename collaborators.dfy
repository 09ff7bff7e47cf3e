/**
 * The collaborators the core calls but whose code is not part of this model: the JWT
 * provider, the password encoder and Spring's `StringUtils.hasText`. The provider
 * and the encoder are values holding total functions, so every property proved
 * holds for any provider and any encoder.
 */
module Collaborators {
  import opened Wrappers

  /** What parsing a token's claims yields: its subject, or the exception it throws. */
  datatype Claims =
    | Valid(subject: string)   // signature and expiry fine
    | Expired                  // ExpiredJwtException
    | Malformed                // any other JwtException or IllegalArgumentException

  /**
   * JwtProvider: `claims` models getUserInfoFromToken, `validateToken` the separate
   * validity check, and the two `create` functions the token minting (time and
   * signing key are folded into the function).
   */
  datatype JwtProvider = JwtProvider(
    claims: string -> Claims,
    validateToken: string -> bool,
    createAccessToken: string -> string,
    createRefreshToken: string -> string)

  /** The header that carries the access token; its value is defined by JwtProvider. */
  const AUTHORIZATION_HEADER: string

  /** PasswordEncoder: one-way encoding and the check of a raw password against a hash. */
  datatype PasswordEncoder = PasswordEncoder(
    encode: string -> string,
    matches: (string, string) -> bool)

  /** java.lang.Character.isWhitespace. */
  predicate IsWhitespace(c: char) {
    || ('\t' <= c <= '\r') || ('\U{1C}' <= c <= '\U{1F}') || c == ' '
    || c == '\U{1680}' || ('\U{2000}' <= c <= '\U{2006}') || ('\U{2008}' <= c <= '\U{200A}')
    || c == '\U{2028}' || c == '\U{2029}' || c == '\U{205F}' || c == '\U{3000}'
  }

  /** StringUtils.hasText: not null, and at least one character that is not whitespace. */
  predicate HasText(s: Option<string>)
    ensures HasText(s) ==> s.Some? && |s.value| > 0
    ensures s.Some? && |s.value| > 0 && !IsWhitespace(s.value[0]) ==> HasText(s)
  {
    s.Some? && exists i :: 0 <= i < |s.value| && !IsWhitespace(s.value[i])
  }

  /** The null token, the empty token and a token of blanks have no text. */
  lemma BlankHasNoText(s: string)
    requires forall i | 0 <= i < |s| :: IsWhitespace(s[i])
    ensures !HasText(None) && !HasText(Some(s))
  {
  }
}
