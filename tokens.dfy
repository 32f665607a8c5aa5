/**
 * JSON Web Tokens, held as their claims. Both kinds carry only the user id
 * and are signed with the same secret; they differ in their lifetime.
 */
module Tokens {
  import opened UserModel

  datatype TokenKind = Access | Refresh

  datatype Token = Token(userId: UserId, kind: TokenKind)

  /** `generateToken(userId)`: a token with the access lifetime. */
  function GenerateToken(userId: UserId): Token {
    Token(userId, Access)
  }

  /** `generateRefreshToken(userId)`: a token with the refresh lifetime. */
  function GenerateRefreshToken(userId: UserId): Token {
    Token(userId, Refresh)
  }

  /**
   * What `verifyToken` makes of a token string: the `userId` claim of a
   * token that verifies, or the error `jwt.verify` throws for an expired
   * token or for any other failure.
   */
  datatype Verdict = Verified(userId: UserId) | Expired | Invalid
}
